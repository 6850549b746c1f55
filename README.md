# Frontier-exploration planner of the Soar-ing-High maze robot

This project models the decision logic of `project3/src/explore.cpp`: the node that picks the
next frontier for a robot to explore. A frontier is a boundary between known-free and unknown
space. The node blacklists frontiers it gives up on, clears that blacklist a bounded number of
times, and stops exploration when nothing is left.

Modules, one per concern of the source file:

- `Geometry` (geometry.dfy): points and `operator==`. Two points are the same when their distance
  is below 0.01. The model states this sqrt-free, as squared distance below 0.0001.
- `Blacklist` (blacklist.dfy): `goalOnBlacklist`. A goal is on the blacklist when some entry lies
  within 10 cells of it on each axis. The window is rectangular.
- `Frontiers` (frontiers.dfy): the frontier record and the rejection predicates (geofence ±5.8,
  size above 10/resolution cells, the two dead ends, the progress timeout). It also holds the
  `find_if_not` selection, the count of eligible frontiers, and the reset heuristic loop.
- `Planner` (planner.dfy): the state of the node as a value. `PlanStep` is one pass of the body of
  `makePlan`. `Plan` is a whole call, where each self-call of the source is one more pass. The
  lemmas about these state the planner's properties.
- `Explorer` (explore.dfy): the class `Explore`. Its fields are the ones `makePlan` and
  `reachedGoal` update in place. `MakePlan` is a loop proved equal to `Plan`. `ReachedGoal`
  blacklists aborted goals.
- `Scenarios` (scenarios.dfy): concrete runs from the initial state.

Inputs the source gets from collaborators are parameters: the cost-sorted frontier list (from the
frontier search), the map resolution (from the costmap), the current time, the progress timeout,
and the two Gaussian noise samples. `MakePlan` returns `Stopped`, `NoOp` or `Dispatch(target)` in
place of calling `stop()` or `sendGoal`.

Behaviour of the code worth knowing:

- The completion callback captures `target_position` after the noise has been added
  (explore.cpp:387-402). So an aborted goal is blacklisted at the perturbed point, and not at the
  centroid. `Blacklist.ShiftedEntryCovers` shows the perturbed entry still covers the centroid
  when each noise sample is smaller than the 10-cell window.
- `prev_goal_` is a ROS point member (explore.cpp:307-308). It starts as (0, 0).
- Selection follows list order (explore.cpp:264-269). With a cost-sorted list `[(2,2), (6,6)]`,
  `(2,2)` is dispatched at once. The out-of-maze `(6,6)` is never examined or blacklisted
  (`Scenarios.FirstEligibleIsDispatched`). It is rejected only when listed first
  (`Scenarios.OutOfMazeIsSkipped`).
- The reset heuristic (explore.cpp:274-286) checks the size limit and the two dead ends, but not
  the geofence.

## Model

| member | source | states |
|---|---|---|
| `Geometry.Abs` | project3/src/explore.cpp:413-414 | `fabs`: the result is non-negative and equals the argument or its negation |
| `Geometry.Dist2` | project3/src/explore.cpp:102-104 | the squared distance `dx * dx + dy * dy` under the source's square root; never negative |
| `Geometry.Same` | project3/src/explore.cpp:99-106 | `operator==`: squared distance below 0.0001. Equal points are the same, and same points differ by less than 0.01 on each axis |
| `Geometry.SquareBelowBound` | project3/src/explore.cpp:104-105 | a coordinate difference whose square, plus a non-negative rest, is below 0.0001 is itself below 0.01 in size |
| `Geometry.SameIffRootBelowEpsilon` | project3/src/explore.cpp:99-106 | for every non-negative root d of the squared distance, the points are the same exactly when d < 0.01 |
| `Geometry.SameReflexive` | project3/src/explore.cpp:99-106 | every point equals itself |
| `Geometry.SameSymmetric` | project3/src/explore.cpp:99-106 | point equality is symmetric |
| `Geometry.SameNotTransitive` | project3/src/explore.cpp:99-106 | three points 0.006 apart on a line: the first equals the second and the second the third, but the first does not equal the third |
| `Blacklist.InWindow` | project3/src/explore.cpp:413-417 | the goal is strictly within 10·res of the entry on each axis. The window is empty unless res > 0, and with res > 0 an entry covers itself |
| `Blacklist.OnBlacklist` | project3/src/explore.cpp:406-421 | true exactly when some entry lies within 10·res of the goal on both axes |
| `Blacklist.OnBlacklistAppend` | project3/src/explore.cpp:406-421 | after an append, a goal is blacklisted exactly when it was before or lies in the new entry's window |
| `Blacklist.AppendedIsOnBlacklist` | project3/src/explore.cpp:416-417 | with res > 0, an appended point is afterwards on the blacklist |
| `Blacklist.ShiftedEntryCovers` | project3/src/explore.cpp:387-402 | an entry shifted by less than 10·res on each axis covers the unshifted point |
| `Blacklist.WindowIsRectangular` | project3/src/explore.cpp:416-417 | at res 0.05, a point farther than 10 cells away (Euclidean) is still covered when each axis is within the window |
| `Frontiers.OutOfMaze` | project3/src/explore.cpp:315 | the four strict comparisons are exactly \|x\| > 5.8 or \|y\| > 5.8 |
| `Frontiers.Oversized` | project3/src/explore.cpp:326 | size > 10/res cells is exactly size·res > 10 map units |
| `Frontiers.ScaleByResolution` | project3/src/explore.cpp:275 | comparing a size in cells with 10/res is comparing size·res with 10 |
| `Frontiers.InTrapA` | project3/src/explore.cpp:337 | exactly the open unit square around (0.5, -6); no point is in both dead ends |
| `Frontiers.InTrapB` | project3/src/explore.cpp:348 | exactly the open unit square around (-0.5, 6) |
| `Frontiers.TimedOut` | project3/src/explore.cpp:361 | elapsed time since the last progress exceeds the timeout. With a non-negative timeout this needs the clock past the last progress; within the timeout it never fires |
| `Frontiers.Rejected` | project3/src/explore.cpp:315-361 | the five checks in source order. An accepted frontier is inside the geofence and would also justify a reset. Inside the geofence and on time, rejection is exactly failing the reset test |
| `Frontiers.ResetCandidate` | project3/src/explore.cpp:275-285 | the frontier sets `reset`: not oversized (so size·res ≤ 10) and in neither dead end |
| `Frontiers.AnyResetCandidate` | project3/src/explore.cpp:274-286 | some frontier sets `reset`. It is false for an empty list, and true whenever the first frontier qualifies |
| `Frontiers.FindEligible` | project3/src/explore.cpp:264-269 | the index of the first frontier whose centroid is not blacklisted; every earlier centroid is blacklisted; \|frontiers\| if none qualifies |
| `Frontiers.EligibleCount` | project3/src/explore.cpp:264-270 | the number of non-blacklisted frontiers; it is zero exactly when the selection finds none |
| `Frontiers.EligibleMonotone` | project3/src/explore.cpp:317 | appending to the blacklist never makes a frontier eligible again |
| `Frontiers.EligibleDrops` | project3/src/explore.cpp:314-370 | blacklisting an eligible frontier's centroid strictly lowers the eligible count |
| `Frontiers.ResetWorthy` | project3/src/explore.cpp:272-286 | the loop's flag is true exactly when some frontier is at most 10/res cells and outside both dead ends |
| `Planner.Perturb` | project3/src/explore.cpp:387-388 | the sent goal is the centroid moved by the two noise samples, at distance exactly the noise's length; zero noise sends the centroid |
| `Planner.PlanStep` | project3/src/explore.cpp:253-375 | one pass of the body. The counter moves only by one reset, which empties the blacklist. A pass that returns leaves the blacklist alone. A pass that calls makePlan again without a reset appends exactly one point. Only a stop clears `exploring` |
| `Planner.StepTerminates` | project3/src/explore.cpp:287-370 | each self-call either raises the reset counter by one, staying at most 5, or keeps it and strictly shrinks the eligible count |
| `Planner.Plan` | project3/src/explore.cpp:239-375 | a whole call. The reset counter never decreases or exceeds 5. Without a reset the old blacklist is a prefix of the new one. Only stopping clears `exploring`. An empty list stops and changes nothing else. A stop on a non-empty list means everything is blacklisted and no reset is allowed. Otherwise the goal is the first non-blacklisted frontier, it passed every check, and a dispatch sends its perturbed centroid with refreshed progress data |
| `Planner.PlanContinues` | project3/src/explore.cpp:293 | a pass that calls makePlan again leaves the rest of the call equal to a call from the new state |
| `Planner.PlanFinishes` | project3/src/explore.cpp:299-300 | a pass that returns ends the call with that pass's state and outcome |
| `Planner.EmptyBlacklistAllEligible` | project3/src/explore.cpp:288 | after a clear, every frontier is eligible |
| `Planner.ExhaustedStep` | project3/src/explore.cpp:270-301 | with every frontier blacklisted, the pass clears the blacklist and raises the counter by exactly one iff some frontier is reset-worthy and the counter is below 5; otherwise it stops, with nothing else changed |
| `Planner.SelectionStep` | project3/src/explore.cpp:264-269 | when some frontier is not blacklisted, the goal is the first such frontier's centroid, every earlier one is blacklisted, the pass does not stop, and a dispatch sends that centroid plus noise |
| `Planner.RejectionStep` | project3/src/explore.cpp:314-370 | the pass calls makePlan again iff the selected frontier is rejected. Then exactly its centroid is appended, the blacklist covers it, and the eligible count shrinks. Otherwise the blacklist is unchanged. The counter and flag never change here |
| `Planner.ProgressStep` | project3/src/explore.cpp:306-313 | `prev_goal_` always becomes the selected centroid. Progress time and distance are refreshed iff the goal changed or came closer, and are kept otherwise. A same goal that passes the checks is a no-op, and a new one is dispatched |
| `Planner.StalledGoalIsBlacklisted` | project3/src/explore.cpp:360-370 | the same goal, no closer, and pursued longer than the timeout is blacklisted on that pass |
| `Explorer.Explore.constructor` | project3/src/explore.cpp:97-117 | starts with an empty blacklist, previous goal (0,0), previous distance 0 (115), progress time 0 and `count_soar` 0 (97); the node is running |
| `Explorer.Explore.Stop` | project3/src/explore.cpp:449-456 | shuts the node down: clears `exploring`, which every planning and callback method requires, and changes nothing else |
| `Explorer.Explore.PlanPass` | project3/src/explore.cpp:253-375 | one pass of the body, on the fields in place. It returns `PlanStep` of the old state, and the new fields are that step's state |
| `Explorer.Explore.MakePlan` | project3/src/explore.cpp:239-404 | only a running node plans. The loop's final state and outcome equal `Plan` of the old state. An empty list only clears `exploring`. The node is still running iff the outcome is not a stop. The counter stays between its old value and 5 |
| `Explorer.Explore.FireOneShot` | project3/src/explore.cpp:439-441 | the armed one-shot timer fires once: it is disarmed, and the call equals `Plan` of the old state |
| `Explorer.Explore.ReachedGoal` | project3/src/explore.cpp:423-442 | on a running node, appends the goal iff the status is aborted, after which it is blacklisted at every positive resolution. Nothing else changes, and the one-shot replan timer is armed |
| `Scenarios.FirstEligibleIsDispatched` | project3/src/explore.cpp:264-313 | from the initial state, `[(2,2), (6,6)]` dispatches (2,2) and leaves the blacklist empty |
| `Scenarios.OutOfMazeIsSkipped` | project3/src/explore.cpp:314-325 | `[(6,6), (2,2)]` blacklists (6,6) by the geofence and dispatches (2,2) |
| `Scenarios.SmallFrontierResets` | project3/src/explore.cpp:270-295 | all blacklisted, one 50-cell frontier at res 0.1 outside the dead ends: the blacklist is cleared and the counter raised by one |
| `Scenarios.SixthExhaustionStops` | project3/src/explore.cpp:287-300 | the same situation with the counter at 5 stops |
| `Scenarios.GeofenceBoundary` | project3/src/explore.cpp:315 | ±5.8 is inside the geofence; anything beyond it on either axis is outside |

## Left out

- Gaussian noise (explore.cpp:377-389): the two samples are a parameter. Their distribution is not modelled.
- `visualizeFrontiers` (explore.cpp:153-235): it only publishes markers.
- Parameter loading, the move_base connection wait and timer creation in the constructor (explore.cpp:118-144). The resolution and the timeout are parameters of `MakePlan`.
- ROS side effects of `stop()`: `cancelAllGoals`, stopping the timer, setting the parameter, `ros::shutdown`. All of them become the `exploring` flag. After it is cleared, `MakePlan`, `FireOneShot` and `ReachedGoal` cannot be called, because their preconditions require `exploring`.
- Explorer.Explore.constructor: `exploring` starts true as an assumption. explore.cpp only ever sets the parameter to false (line 454), and whatever sets it true is not part of this model.
- The one-shot timer of `reachedGoal` (explore.cpp:439-441) becomes the `replanScheduled` flag. `FireOneShot` clears it and plans. Periodic ticks are plain `MakePlan` calls and leave it armed.
- `sendGoal`'s orientation, frame id and time stamp (explore.cpp:393-397). Only the target point is modelled.
- Frontier search, robot pose and costmap queries. Each self-call of the source queries them again; the model fixes the frontier list, resolution and time for a whole call.
- Timer and callback concurrency, and `main` (explore.cpp:460-471). Timer ticks and completion callbacks are sequential method calls.
- Logging.
- Floating point: coordinates, sizes, times and the resolution are `real`, with `res > 0` as a precondition. The source divides by the resolution.
- Frontier fields `cost`, `initial` and `points`: the planner never reads them. The list is taken as already sorted by cost.
