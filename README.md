# Elevator dispatch and routing, modelled in Dafny

This project models the dispatch-and-route core of a single-threaded Java
elevator simulator.

A building has `numFloors` floors, numbered from 0. It keeps one summon flag
per floor and direction (`upSummons`, `downSummons`) and a FIFO queue of
unclaimed calls (`pendingRequests`). It also has a fixed fleet of cars.

An external call (`ElevatorSummon`) goes through four steps:

- It checks the floor.
- It raises the flag for that floor and direction.
- It picks a car in two tiers. The nearest car already moving towards the
  floor in the caller's direction wins, if it is within the detour threshold.
  Otherwise the nearest idle car wins. Out-of-service cars are never picked.
- The picked car either stretches its target or starts a trip. If no car is
  picked, the call joins the end of the queue.

A trip (`GoToFloor`) runs to completion:

- The car moves one floor at a time.
- At each floor it clears the flag of the direction it is stepping in. It
  stops for a pickup when that flag was raised.
- At the floor before its target it picks its next leg. The single queued
  in-car floor comes first, then the oldest pending call.
- It then claims the pending calls that lie on the way (`claimPendingRequests`).

A button pressed inside a car (`FloorButtonPressed`) does one of two things:

- It stretches the current leg when the floor is on the side the car is
  heading.
- Otherwise it fills the car's single queued slot, merged by min or max.

## Files

- `requests.dfy`, module `Requests`: the value types.
  - `Direction`, `ElevatorState` and the immutable `FloorRequest`.
  - The two failures, as an `Outcome`.
  - `Integer.MAX_VALUE` and the `-1` "no queued floor" sentinel.
- `routing.dfy`, module `Routing`: pure functions and their lemmas.
  - Compatibility and distance.
  - Threshold clamping.
  - The in-range test and claiming (`Claim`), with its fixed-target
    characterisation (`Remaining`) and the order-keeping relation `Subseq`.
  - The choice of the next leg (`PlanLeg`).
  - The in-car button policy (`Press`).
- `trip.dfy`, module `Trip`: the trip loop of `GoToFloor` as a transition
  system on a value `Ride`.
  - A `Ride` holds the car's fields, the queue, both flag arrays as
    sequences, the loop counter and its step direction, and the log of
    floors reached.
  - `Step` is one pass of the loop body.
  - `Travel` is the whole loop. It is proved to terminate under the
    lexicographic measure: queue length, then whether the car heads for its
    queued floor, then the floors left on the leg.
- `fleet.dfy`, module `Fleet`: the two classes with their fields, as mutable
  state.
  - `Controller` has arrays for the flags, a `seq` for the queue and a `seq`
    of cars.
  - `Elevator` has the car's fields.
  - Every method is proved against the functions above. `ElevatorOnTheWay`
    equals the spec function `Pick`, and `Pick` has the two-tier selection
    property. The loop of `GoToFloor` equals `Travel`. `claimPendingRequests`
    equals `Claim`. `FloorButtonPressed` equals `Press`.

The source methods are split into smaller Dafny methods to keep each proof
small:

- `ElevatorSummon` into `Raise`, `Answer` and `Dispatch`.
- `GoToFloor` into `Depart`, `Drive`, `ServeFloor`, `Reach` and `NextLeg`.
- `claimPendingRequests` into `ClaimPendingRequests`, `SweepPending` and `ClaimEntry`.

The statements run in the source's order, with two exceptions:

- At the end of a leg, `ServeFloor` resets the loop variables (`i`,
  `isGoingUp`, `increment`, `summons`) after `NextLeg` has claimed the
  pending calls. The source resets them before the claim. The claim does
  not read them, so nothing observable changes.
- The constructors build the sequence of cars after `new;`, that is, after
  the other fields are set.

Pickups are recorded as a log of `Visit(floor, heading, pickup)` entries,
returned by `GoToFloor`. Each entry records a floor reached, the step
direction, and whether `PickUpPassenger` ran there.

Behaviours of the source that the model keeps as written:

- The first leg of a trip steps in the car's *previous* direction
  (`isGoingUp` is read before `dir` is recomputed).
  - A trip against that direction never enters the loop and ends MOVING
    (`Trip.LaunchAgainstOldDirection`).
- A leg of length zero never meets the `i == target ∓ 1` test, so it also
  ends MOVING (`Trip.LaunchToOwnFloor`). The same holds for a re-planned leg
  of length one. A car that turns at floor c and heads for c ± 1 starts the
  leg at c, so the test never holds again. The car reaches its target and
  ends the loop MOVING, possibly with calls still pending. The second half
  of `Trip.TurnSkipsTarget` shows this.
- The queued slot is read but never cleared. Its value survives every trip
  (`Trip.Travel` ensures `t.queued == r.queued`), and once set it is the
  first target of every later leg. Claiming may still stretch a leg past it.
- A car that starts a new leg at the floor before its target never reaches
  that target, because the new leg starts from that floor. Heading up from
  floor 5 to floor 8 with floor 3 queued, a car turns at floor 7, never
  reaches floor 8, and ends the loop MOVING at floor 3
  (`Trip.TurnSkipsTarget`).
- For an idle car, `ElevatorSummon` merges the call floor with the car's
  stale target (`Routing.Stretch`), so the trip may go elsewhere than the
  call floor. `Fleet.Controller.Dispatch` states the trip as `Travel` of the
  launch towards that merged target (`Fleet.Controller.Answering`). A new
  car answering a call from the ground floor stays MOVING there
  (`Fleet.Controller.NewCarAnswers`).
- `FloorButtonPressed` does not look at the state, so an idle car can get a
  queued floor.
- `claimPendingRequests` removes entries from the `ArrayList` it iterates
  over with a for-each loop. In Java that throws
  `ConcurrentModificationException` unless the removed entry is the
  second-to-last one. In that case the loop ends without looking at the last
  entry, which stays pending even when it is on the way. The model performs the evidently intended stable
  left-to-right filter. It tests each entry against the *live*, already
  stretched target. `Routing.ClaimIsRemaining` shows that this equals
  filtering against the target of the start of the pass.

## Model

| member | source | states |
|---|---|---|
| Requests.Direction | FloorRequest.java:16-19 | the two travel directions, Up and Down |
| Requests.ElevatorState | FloorRequest.java:7-11 | the three car states: Idle, Moving, OutOfService |
| Requests.FloorRequest | FloorRequest.java:25-37 | an immutable call: the floor it came from and the direction the caller wants |
| Routing.IsCompatibleDirection | ElevatorController.java:193-203 | a call is compatible with a car heading Up exactly when the call is at or above the car and wants Up, and with a car heading Down exactly when it is at or below the car and wants Down |
| Routing.Distance | ElevatorController.java:211-213 | the distance is a natural number equal to floor − car floor or car floor − floor |
| Routing.DistanceBelowFloorCount | ElevatorController.java:147-148 | within a building of n floors the distance is below n, so the Integer.MAX_VALUE starting bests are never reached or exceeded |
| Routing.CompatibleIsInRange | ElevatorController.java:193-203 | a call compatible with a car (same direction, not behind it) and within the threshold lies on that car's way for any target |
| Routing.InRangeIsCompatible | Elevator.java:164-180 | every call on a car's way is compatible with the car |
| Routing.Stretch | ElevatorController.java:115-117 | the new target of a chosen car is its target or the call floor, whichever is farther in its direction (the larger going up, the smaller going down) |
| Routing.Clamp | ElevatorController.java:41-43 | the stored threshold is in [0, n]; it equals the argument when that is in range, 0 below and n above |
| Routing.EvenShareInRange | ElevatorController.java:53 | the default threshold numFloors / numElevators lies in [0, numFloors] |
| Routing.InRange | Elevator.java:164-180 | a call is on a car's way exactly when it wants the car's direction, is at or ahead of the car, and is not beyond max(target, current + threshold) going up or min(target, current − threshold) going down |
| Routing.Claim | Elevator.java:143-155 | claiming never lengthens the queue, and moves the target only further in the pass direction; when nothing is claimed the queue and target are unchanged |
| Routing.Remaining | Elevator.java:164-180 | a call is left pending exactly when it was pending and is not on the leg's way for the fixed target |
| Routing.ClaimIsRemaining | Elevator.java:143-155 | claiming with the live target leaves exactly the fixed-target filter of the queue |
| Routing.RemainingIsSubseq | Elevator.java:146-153 | the calls left pending keep their relative order |
| Routing.ClaimTarget | Elevator.java:147-149 | the claimed target is the old target or the floor of a claimed call, and never passes max(target, current + threshold) going up or min(target, current − threshold) going down |
| Routing.ClaimTargetInBuilding | Elevator.java:147-149 | a claimed target stays on a floor of the building |
| Routing.ClaimKeepsPlacement | Elevator.java:143-155 | after claiming, the target is on the side the car heads, and every call left pending is on a floor of the building |
| Routing.ClaimingNext | Elevator.java:146-153 | one iteration of the claiming loop, taking or keeping the entry under it, keeps the pass equal to the claim of the whole queue |
| Routing.ClaimingDone | Elevator.java:146-154 | when the loop ends, the queue and target are the claim of the whole queue |
| Routing.PlanLeg | Elevator.java:107-133 | the car rests exactly when the queued slot is −1 and nothing is pending |
| Routing.PlanLegShape | Elevator.java:115-132 | a new leg heads for the queued floor if set, else the oldest pending call (FIFO); its direction is Down exactly when the car is above that floor; it keeps exactly the calls not on the way; its target is that floor or a claimed floor within the reach |
| Routing.PlanLegHeading | Elevator.java:125 | a new leg's direction is Up exactly when its target is at or above the car |
| Routing.PlanLegProgress | Elevator.java:115-132 | a new leg keeps the pending calls in order, and either shortens the queue or heads for the queued floor with the queue untouched |
| Routing.PlanLegInBuilding | Elevator.java:115-132 | a new leg planned in the building has its target and remaining calls in the building |
| Routing.Press | Elevator.java:60-70 | a press never changes floor or direction; on the heading side it raises the target to the floor by max (Up) or lowers it by min (Down), leaving the slot alone; otherwise it leaves the target and sets an empty slot to the floor, else merges it by min (Up) or max (Down) |
| Routing.PressIdempotent | Elevator.java:60-70 | pressing the same floor twice is the same as pressing it once |
| Routing.PressCommutes | Elevator.java:60-70 | two presses give the same result in either order |
| Routing.PressKeepsPlacement | Elevator.java:60-70 | a press keeps the target on the heading side and the target and slot on floors of the building |
| Trip.ClearedIsUnvisited | Elevator.java:103-104 | after a traversal a flag is raised exactly when it was raised before and its floor was not reached in its direction |
| Trip.PickupsAreFirstVisits | Elevator.java:99-104 | a pickup happens at a visit exactly when the flag of that floor and step direction was raised at the start and this is the first arrival there in that direction |
| Trip.Launch | Elevator.java:89-98 | the state entering the loop: the new target, MOVING, the direction recomputed from the target, and the counter at the car's floor, stepping in the car's previous direction |
| Trip.Step | Elevator.java:98-135 | one pass of the loop body: Arrive, then Turn, then advance the counter by the increment of the (possibly new) step direction |
| Trip.Arrive | Elevator.java:99-104 | a pass stands the car on floor i and logs exactly one more floor reached |
| Trip.Turn | Elevator.java:106-133 | the turn at the floor before the target leaves the car's floor, both flag sets and the log alone |
| Trip.StepSane | Elevator.java:98-135 | one pass of the loop keeps the loop's invariant (floors of the building, target on the heading side, an idle car has nothing queued or pending) and never touches the queued slot |
| Trip.StepProgress | Elevator.java:98-135 | every pass shortens the queue, or starts heading for the queued floor, or brings the counter one floor nearer the target |
| Trip.Travel | Elevator.java:98-135 | the loop terminates in a state satisfying the invariant with the guard false; the queued slot is never cleared; a car that went idle stands at its target with nothing pending or queued |
| Trip.TravelStep | Elevator.java:98-135 | a running pass keeps the invariant, lowers the termination measure, and leaves the same end state |
| Trip.TravelTraced | Elevator.java:99-104 | over a whole trip the flags and pickups are those of the floors reached |
| Trip.TravelKeepsOrder | Elevator.java:107-133 | over a whole trip the pending calls are only removed, never reordered |
| Trip.TravelWalks | Elevator.java:98-103 | the car moves one floor per step from its starting floor to where it ends |
| Trip.LaunchSane | Elevator.java:89-98 | the state entering the loop satisfies the loop's invariant |
| Trip.LaunchTravel | Elevator.java:81-136 | a whole trip leaves no pending call out of order, clears exactly the flags reached in their direction, picks up exactly at first arrivals where a flag was raised, reaches only floors of the building, and walks one floor at a time from the car's floor to where it stops |
| Trip.LaunchAgainstOldDirection | Elevator.java:93-98 | a trip against the previous direction reaches no floor and ends MOVING with the new target and direction and the queue unchanged |
| Trip.LaunchToOwnFloor | Elevator.java:98-107 | a trip to the car's own floor reaches that floor once and ends MOVING without touching the queue |
| Trip.TravelStraight | Elevator.java:98-113 | with nothing queued or pending and no re-planning, every floor is reached in the first step direction |
| Trip.TurnSkipsTarget | Elevator.java:107-133 | heading up from floor 5 to floor 8 with floor 3 queued and nothing pending, the trip never reaches floor 8 and ends MOVING at floor 3, with floor 3 still queued |
| Trip.LaunchStraight | Elevator.java:98-113 | with nothing queued or pending, a trip onward in the previous direction ends IDLE at the target, every step in that direction |
| Fleet.Controller.constructor | ElevatorController.java:50-63 | the floor count and fleet size are stored; the threshold is numFloors / numElevators; both flag arrays are fresh, of length numFloors and all false; the queue is empty; the fleet is numElevators fresh new cars |
| Fleet.Controller.WithFleet | ElevatorController.java:71-84 | requires every car placed in the building; as above for a given fleet: the threshold is numFloors / fleet size, and every car is bound to the controller with its position, target, direction, slot and state untouched |
| Fleet.Controller.Bind | ElevatorController.java:80-83 | every car of the fleet is bound to this controller, nothing else of the cars changes |
| Fleet.Controller.SetMaxDistanceThreshold | ElevatorController.java:41-43 | the threshold becomes the clamp of the argument to [0, numFloors]; nothing else changes |
| Fleet.Controller.Consider | ElevatorController.java:153-179 | the selection loop's variables after looking at one car: an out-of-service car is skipped; an idle car is considered only while no car on its way is chosen; a compatible moving car within the threshold wins when strictly nearer |
| Fleet.Controller.Scan | ElevatorController.java:145-180 | the selection loop's variables after the first k cars, starting from no choice and Integer.MAX_VALUE distances |
| Fleet.Controller.ScanChooses | ElevatorController.java:151-180 | after looking at the first k cars the loop variables hold the nearest car on its way within the threshold (earliest on ties) with its distance, or else the nearest idle car (earliest on ties), or no car |
| Fleet.Controller.PassOver | ElevatorController.java:153-179 | an out-of-service car, an idle car once a car on its way was chosen, or a moving car that is not on its way nearer than the best, leaves the choice as it is |
| Fleet.Controller.ConsiderIdle | ElevatorController.java:157-166 | an idle car looked at while no car on its way is chosen becomes the choice exactly when it is strictly nearer than the idle choice so far |
| Fleet.Controller.TakeOnTheWay | ElevatorController.java:168-178 | a car on its way strictly nearer than the best so far becomes the choice and displaces the idle choice |
| Fleet.Controller.ElevatorOnTheWay | ElevatorController.java:145-182 | the loop returns the spec choice Pick, which is a car of the fleet that is not out of service, or none; nothing changes |
| Fleet.Controller.PickSelects | ElevatorController.java:137-182 | the choice satisfies the two-tier rule, and it is the only choice that does |
| Fleet.Controller.SelectsUnique | ElevatorController.java:137-144 | at most one choice meets the two-tier rule |
| Fleet.Controller.Raise | ElevatorController.java:98-102 | the flag of the call floor is raised in the array of the call direction; no other flag of either array changes |
| Fleet.Controller.Dispatch | ElevatorController.java:113-133 | a moving chosen car only gets its target stretched to max (heading Up) or min (heading Down) of it and the floor; an idle chosen car makes the whole trip of GoToFloor towards that stretched target, so its floor, target, direction, state and slot, the queue and both flag arrays are those of Travel of that launch, and the queue keeps its order; no other car changes |
| Fleet.Controller.NewCarAnswers | ElevatorController.java:113-132 | a car as built with nothing pending answers a call above the ground floor by ending IDLE at that floor, and a call from the ground floor by ending MOVING there |
| Fleet.Controller.Answer | ElevatorController.java:104-134 | with no car chosen the call is appended to the queue and nothing else changes; otherwise it is dispatched to the chosen car with the outcome stated for Dispatch; the queue grows by at most one |
| Fleet.Controller.ElevatorSummon | ElevatorController.java:95-135 | an out-of-range floor fails with FloorRange and changes nothing; otherwise the flag is raised and the call is queued at the end or answered by the chosen car, as in Answer; an idle chosen car makes its trip with the call's flag already raised; the controller stays valid |
| Fleet.Elevator.constructor | Elevator.java:13-46 | a new car is idle at floor 0 heading up with nothing queued, bound to its controller |
| Fleet.Elevator.SetState | Elevator.java:32 | the state becomes the argument |
| Fleet.Elevator.SetInstance | Elevator.java:39-41 | the car is bound to the given controller |
| Fleet.Elevator.FloorButtonPressed | Elevator.java:55-71 | an out-of-range floor fails with FloorRange and changes nothing; otherwise the car's fields become Press of the old ones; the car stays placed in the building |
| Fleet.Elevator.SweepPending | Elevator.java:146-154 | the queue and target after the pass are the claim of the old queue from the old target with the live target |
| Fleet.Elevator.ClaimEntry | Elevator.java:147-152 | the first unexamined entry of the pass is removed, and the target stretched to its floor, exactly when it is on the way for the live target; otherwise the queue and target stay as they are; either way the pass stays equal to the claim of the whole queue |
| Fleet.Elevator.ClaimPendingRequests | Elevator.java:143-155 | as SweepPending, with the pass direction fixed from target ≥ current at entry; the car and controller stay valid |
| Fleet.Elevator.NextLeg | Elevator.java:107-133 | with nothing queued or pending the car goes IDLE and nothing else changes; otherwise target, direction and queue become those of PlanLeg |
| Fleet.Elevator.Reach | Elevator.java:99-104 | the car's state after reaching floor i is Arrive of the state before |
| Fleet.Elevator.ServeFloor | Elevator.java:98-135 | the state after one pass of the loop body is Step of the state before |
| Fleet.Elevator.Drive | Elevator.java:98-135 | the state after the loop is Travel of the state before it |
| Fleet.Elevator.Depart | Elevator.java:89-135 | the trip sets the target, the MOVING state and the new direction, steps in the old direction, and ends in Travel of that launch |
| Fleet.Elevator.GoToFloor | Elevator.java:81-136 | an out-of-range floor fails with FloorRange; a car that is not idle fails with BadElevatorState; a failure changes nothing; otherwise the car, the queue, the flags and the log of floors reached are those of Travel of the launched trip |

## Left out

- `PickUpPassenger`, `OpenDoor`, `CloseDoor` and `Wait` are empty mechanical hooks with float durations. A pickup is recorded as the `pickup` flag of a `Visit`, not as calls.
- The getters are field reads. `FloorRequest`'s getters are the datatype's fields. A `FloorRequest` is an immutable value, so it cannot change while queued.
- `setDir` and `setTargetFloor` are left out. They bypass every invariant. `SetState` is kept, so that OUT_OF_SERVICE can arise.
- The ElevatorStateException branch of `ElevatorSummon` is not a separate path. The selection never returns an out-of-service car, so `Dispatch` requires that the car is not out of service.
- Java's `assert` statements are not modelled separately. `Direction` and `ElevatorState` are closed datatypes, which covers them.
- `ConcurrentModificationException` inside `claimPendingRequests` is replaced by the intended stable filter, as described above.
- Integer overflow is not modelled. The floor count is bounded by Integer.MAX_VALUE, and the distances are below it (`DistanceBelowFloorCount`). The reach sums `current ± threshold` stay within ±2·Integer.MAX_VALUE, which Java would wrap. They are computed here on unbounded integers.
- `Controller.constructor` requires `0 <= numFloors` and `0 < numElevators`, where Java would throw. A negative floor count throws NegativeArraySizeException and an empty fleet throws ArithmeticException. These exceptions are not modelled as results.
- Fleet.Elevator.GoToFloor: the floors reached are stated to be floors of the building, visited one floor at a time. They are not bounded leg by leg between each leg's start and target.
- Fleet.Controller.WithFleet: the model requires each given car to be placed in the building: on one of its floors, with its target on its heading side, and its queued slot empty or a floor of the building. Java checks none of this. Such a car would index the flag arrays out of range (Elevator.java:99) on its first trip. An out-of-service car the selection would never pick is refused as well.
- The fleet is a `seq` of distinct cars, fixed after construction. The controller never writes its car array. The second Java constructor keeps the caller's array by reference, so the caller could still replace cars in it. That aliasing is not modelled.
