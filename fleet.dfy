/** The controller and its cars. The two classes refer to each other (a car
    reads the controller's floor count, threshold, summon flags and pending
    queue; the controller dispatches its cars), so they share one module. */
module Fleet {
  import opened Requests
  import opened Routing
  import opened Trip

  /** A floor a car may stand on in a building of `n` floors: one of its
      floors, or floor 0, where every car is built, even in a building
      without floors. */
  predicate OnBoard(f: int, n: int)
  {
    0 <= f && (f < n || f == 0)
  }

  /** The selection loop's variables: the chosen car, the best distance of
      a car on its way, the best distance of an idle car, and whether the
      choice is an idle car. */
  datatype Scanned = Scanned(choice: Option<nat>, bestDistance: int, bestIdleDistance: int, sendingIdle: bool)

  /** Building-wide state: the floor count, the detour threshold, one summon
      flag per floor and direction, the FIFO queue of unclaimed calls and the
      fleet. The fleet never changes after construction. */
  class Controller {
    var numFloors: int
    var numElevators: int
    var maxDistanceThreshold: int
    var upSummons: array<bool>
    var downSummons: array<bool>
    var elevators: seq<Elevator>
    var pendingRequests: seq<FloorRequest>

    /** The flag array of one direction. */
    function Summons(d: Direction): array<bool>
      reads this
    {
      if d == Up then upSummons else downSummons
    }

    /** What a car relies on while it moves: a Java-sized floor count, a
        threshold in [0, numFloors], one flag per floor in two distinct
        arrays, and pending calls on floors of the building. */
    ghost predicate Building()
      reads this
    {
      && 0 <= numFloors <= IntMax
      && 0 <= maxDistanceThreshold <= numFloors
      && upSummons.Length == numFloors && downSummons.Length == numFloors
      && upSummons != downSummons
      && forall x :: x in pendingRequests ==> 0 <= x.floor < numFloors
    }

    /** The controller's invariant: a non-empty fleet of distinct cars, each
        bound to this controller and standing on a floor of the building. */
    ghost predicate Valid()
      reads this, elevators
    {
      && Building()
      && numElevators == |elevators| > 0
      && (forall j, k :: 0 <= j < k < |elevators| ==> elevators[j] != elevators[k])
      && (forall k :: 0 <= k < |elevators| ==>
            elevators[k].controller == this && elevators[k].PlacedIn(numFloors))
    }

    /** Builds a controller and a uniform fleet of fresh cars. Java throws on a
        negative floor count (array size) or an empty fleet (division by zero). */
    constructor (numFloors: int, numElevators: int)
      requires 0 <= numFloors <= IntMax
      requires 0 < numElevators
      ensures Valid()
      ensures this.numFloors == numFloors && this.numElevators == numElevators
      ensures maxDistanceThreshold == numFloors / numElevators
      ensures fresh(upSummons) && fresh(downSummons)
      ensures forall f :: 0 <= f < numFloors ==> !upSummons[f] && !downSummons[f]
      ensures pendingRequests == []
      ensures |elevators| == numElevators
      ensures forall k :: 0 <= k < |elevators| ==> fresh(elevators[k]) && elevators[k].IsNew()
    {
      this.numFloors := numFloors;
      this.numElevators := numElevators;
      maxDistanceThreshold := numFloors / numElevators;
      EvenShareInRange(numFloors, numElevators);
      upSummons := new bool[numFloors](_ => false);
      downSummons := new bool[numFloors](_ => false);
      pendingRequests := [];
      elevators := [];
      new;
      var fleet: seq<Elevator> := [];
      while |fleet| < numElevators
        modifies {}
        invariant |fleet| <= numElevators
        invariant forall k :: 0 <= k < |fleet| ==>
          fresh(fleet[k]) && fleet[k].controller == this && fleet[k].IsNew()
        invariant forall j, k :: 0 <= j < k < |fleet| ==> fleet[j] != fleet[k]
      {
        var e := new Elevator(this);
        fleet := fleet + [e];
      }
      elevators := fleet;
    }

    /** Builds a controller around cars made elsewhere and binds each of them
        to it. */
    constructor WithFleet(numFloors: int, fleet: seq<Elevator>)
      requires 0 <= numFloors <= IntMax
      requires |fleet| > 0
      requires forall j, k :: 0 <= j < k < |fleet| ==> fleet[j] != fleet[k]
      requires forall k :: 0 <= k < |fleet| ==> fleet[k].PlacedIn(numFloors)
      modifies set e | e in fleet
      ensures Valid()
      ensures this.numFloors == numFloors && numElevators == |fleet|
      ensures maxDistanceThreshold == numFloors / |fleet|
      ensures fresh(upSummons) && fresh(downSummons)
      ensures forall f :: 0 <= f < numFloors ==> !upSummons[f] && !downSummons[f]
      ensures pendingRequests == []
      ensures elevators == fleet
      ensures forall k :: 0 <= k < |fleet| ==>
        fleet[k].Snapshot() == old(fleet[k].Snapshot()) && fleet[k].state == old(fleet[k].state)
    {
      this.numFloors := numFloors;
      numElevators := |fleet|;
      maxDistanceThreshold := numFloors / |fleet|;
      EvenShareInRange(numFloors, |fleet|);
      elevators := fleet;
      upSummons := new bool[numFloors](_ => false);
      downSummons := new bool[numFloors](_ => false);
      pendingRequests := [];
      new;
      Bind(fleet);
    }

    /** Binds every car of `fleet` to this controller, one after another. */
    method Bind(fleet: seq<Elevator>)
      modifies set e | e in fleet
      ensures forall k :: 0 <= k < |fleet| ==> fleet[k].controller == this
      ensures forall k :: 0 <= k < |fleet| ==>
        fleet[k].Snapshot() == old(fleet[k].Snapshot()) && fleet[k].state == old(fleet[k].state)
    {
      for i := 0 to |fleet|
        invariant forall k :: 0 <= k < i ==> fleet[k].controller == this
        invariant forall k :: 0 <= k < |fleet| ==>
          fleet[k].Snapshot() == old(fleet[k].Snapshot()) && fleet[k].state == old(fleet[k].state)
      {
        fleet[i].SetInstance(this);
      }
    }

    /** Overrides the detour threshold, clamped to [0, numFloors]. */
    method SetMaxDistanceThreshold(maxFloors: int)
      requires Valid()
      modifies this`maxDistanceThreshold
      ensures Valid()
      ensures maxDistanceThreshold == Clamp(maxFloors, numFloors)
    {
      maxDistanceThreshold := Max(Min(numFloors, maxFloors), 0);
    }

    /** A moving car that will pass the called floor in the caller's
        direction, within the detour threshold of it. */
    ghost predicate OnTheWay(e: Elevator, request: FloorRequest)
      reads this, e
    {
      && e.state == Moving
      && IsCompatibleDirection(e.dir, e.currentFloor, request)
      && Distance(request.floor, e.currentFloor) <= maxDistanceThreshold
    }

    ghost function Gap(k: int, request: FloorRequest): nat
      requires 0 <= k < |elevators|
      reads this, elevators
    {
      Distance(request.floor, elevators[k].currentFloor)
    }

    ghost predicate AnyOnTheWay(request: FloorRequest, n: int)
      requires n <= |elevators|
      reads this, elevators
    {
      exists j :: 0 <= j < n && OnTheWay(elevators[j], request)
    }

    ghost predicate AnyIdle(n: int)
      requires n <= |elevators|
      reads this, elevators
    {
      exists j :: 0 <= j < n && elevators[j].state == Idle
    }

    /** Looking at one more car adds it to the candidates. */
    lemma ExtendCandidates(request: FloorRequest, k: int)
      requires 0 <= k < |elevators|
      ensures AnyOnTheWay(request, k + 1) <==> AnyOnTheWay(request, k) || OnTheWay(elevators[k], request)
      ensures AnyIdle(k + 1) <==> AnyIdle(k) || elevators[k].state == Idle
    {
      if OnTheWay(elevators[k], request) {
        assert AnyOnTheWay(request, k + 1);
      }
      if elevators[k].state == Idle {
        assert AnyIdle(k + 1);
      }
    }

    /** Among the first `n` cars, car `k` is the nearest one on its way, and
        the first in the fleet among equally near ones. */
    ghost predicate NearestOnTheWay(k: int, request: FloorRequest, n: int)
      requires n <= |elevators|
      reads this, elevators
    {
      && 0 <= k < n
      && OnTheWay(elevators[k], request)
      && forall j :: 0 <= j < n && OnTheWay(elevators[j], request) ==>
           if j < k then Gap(k, request) < Gap(j, request) else Gap(k, request) <= Gap(j, request)
    }

    /** Among the first `n` cars, car `k` is the nearest idle one, and the
        first in the fleet among equally near ones. */
    ghost predicate NearestIdle(k: int, request: FloorRequest, n: int)
      requires n <= |elevators|
      reads this, elevators
    {
      && 0 <= k < n
      && elevators[k].state == Idle
      && forall j :: 0 <= j < n && elevators[j].state == Idle ==>
           if j < k then Gap(k, request) < Gap(j, request) else Gap(k, request) <= Gap(j, request)
    }

    /** The two-tier selection rule: a car already on its way within the
        threshold beats any idle car; failing that the nearest idle car is
        sent; failing that no car is. */
    ghost predicate Selects(choice: Option<nat>, request: FloorRequest)
      reads this, elevators
    {
      if AnyOnTheWay(request, |elevators|) then
        choice.Some? && NearestOnTheWay(choice.value, request, |elevators|)
      else if AnyIdle(|elevators|) then
        choice.Some? && NearestIdle(choice.value, request, |elevators|)
      else
        choice.None?
    }

    /** What the selection loop knows after looking at the first `k` cars:
        the best car on its way so far, or else the best idle car so far, and
        the distances and the idle flag the source keeps beside it. */
    ghost predicate ChosenSoFar(request: FloorRequest, k: int, choice: Option<nat>,
                                bestDistance: int, bestIdleDistance: int, sendingIdle: bool)
      requires 0 <= k <= |elevators|
      reads this, elevators
    {
      && (choice.Some? ==> choice.value < k)
      && (AnyOnTheWay(request, k) ==>
            && choice.Some? && NearestOnTheWay(choice.value, request, k)
            && bestDistance == Gap(choice.value, request) && !sendingIdle)
      && (!AnyOnTheWay(request, k) ==>
            && bestDistance == IntMax
            && (sendingIdle <==> AnyIdle(k))
            && (AnyIdle(k) ==> choice.Some? && NearestIdle(choice.value, request, k)
                               && bestIdleDistance == Gap(choice.value, request))
            && (!AnyIdle(k) ==> choice.None? && bestIdleDistance == IntMax))
    }

    /** A car that cannot improve on the current choice leaves it as is:
        one out of service, an idle car once a car on its way was chosen, or
        a moving car that is not on its way nearer than the choice. */
    lemma PassOver(request: FloorRequest, k: int, choice: Option<nat>,
                   bestDistance: int, bestIdleDistance: int, sendingIdle: bool)
      requires 0 <= k < |elevators|
      requires ChosenSoFar(request, k, choice, bestDistance, bestIdleDistance, sendingIdle)
      requires || elevators[k].state == OutOfService
               || (elevators[k].state == Idle && choice.Some? && !sendingIdle)
               || (elevators[k].state == Moving &&
                   !(OnTheWay(elevators[k], request) && Gap(k, request) < bestDistance))
      requires Gap(k, request) < IntMax
      ensures ChosenSoFar(request, k + 1, choice, bestDistance, bestIdleDistance, sendingIdle)
    {
      ExtendCandidates(request, k);
    }

    /** An idle car, looked at while no car on its way has been chosen,
        becomes the choice when it is nearer than the idle choice so far. */
    lemma ConsiderIdle(request: FloorRequest, k: int, choice: Option<nat>,
                       bestDistance: int, bestIdleDistance: int, sendingIdle: bool)
      requires 0 <= k < |elevators|
      requires ChosenSoFar(request, k, choice, bestDistance, bestIdleDistance, sendingIdle)
      requires elevators[k].state == Idle && (choice.None? || sendingIdle)
      requires Gap(k, request) < IntMax
      ensures Gap(k, request) < bestIdleDistance ==>
                ChosenSoFar(request, k + 1, Some(k), bestDistance, Gap(k, request), true)
      ensures Gap(k, request) >= bestIdleDistance ==>
                ChosenSoFar(request, k + 1, choice, bestDistance, bestIdleDistance, true)
    {
      ExtendCandidates(request, k);
    }

    /** A car on its way nearer than every such car so far becomes the
        choice, displacing any idle car. */
    lemma TakeOnTheWay(request: FloorRequest, k: int, choice: Option<nat>,
                       bestDistance: int, bestIdleDistance: int, sendingIdle: bool)
      requires 0 <= k < |elevators|
      requires ChosenSoFar(request, k, choice, bestDistance, bestIdleDistance, sendingIdle)
      requires OnTheWay(elevators[k], request) && Gap(k, request) < bestDistance
      ensures ChosenSoFar(request, k + 1, Some(k), Gap(k, request), bestIdleDistance, false)
    {
      ExtendCandidates(request, k);
    }

    /** The selection loop's variables after looking at car k. */
    ghost function Consider(scan: Scanned, request: FloorRequest, k: int): Scanned
      requires 0 <= k < |elevators|
      reads this, elevators
    {
      var e := elevators[k];
      var d := Distance(request.floor, e.currentFloor);
      if e.state == Idle then
        if scan.choice.None? || scan.sendingIdle then
          if d < scan.bestIdleDistance then scan.(choice := Some(k), bestIdleDistance := d, sendingIdle := true)
          else scan.(sendingIdle := true)
        else scan
      else if e.state == Moving && IsCompatibleDirection(e.dir, e.currentFloor, request)
              && d < scan.bestDistance && d <= maxDistanceThreshold then
        scan.(choice := Some(k), bestDistance := d, sendingIdle := false)
      else scan
    }

    /** The selection loop's variables after looking at the first k cars. */
    ghost function Scan(request: FloorRequest, k: int): Scanned
      requires 0 <= k <= |elevators|
      reads this, elevators
    {
      if k == 0 then Scanned(None, IntMax, IntMax, false)
      else Consider(Scan(request, k - 1), request, k - 1)
    }

    /** Scanning the first k cars makes the two-tier choice among them. */
    lemma {:induction false} ScanChooses(request: FloorRequest, k: int)
      requires Valid() && 0 <= request.floor < numFloors
      requires 0 <= k <= |elevators|
      ensures var s := Scan(request, k);
        ChosenSoFar(request, k, s.choice, s.bestDistance, s.bestIdleDistance, s.sendingIdle)
    {
      if k > 0 {
        ScanChooses(request, k - 1);
        DistanceBelowFloorCount(request.floor, elevators[k - 1].currentFloor, numFloors);
        ConsiderChooses(request, k - 1, Scan(request, k - 1));
      }
    }

    /** Looking at one more car keeps the two-tier choice. */
    lemma ConsiderChooses(request: FloorRequest, k: int, s: Scanned)
      requires 0 <= k < |elevators| && Gap(k, request) < IntMax
      requires ChosenSoFar(request, k, s.choice, s.bestDistance, s.bestIdleDistance, s.sendingIdle)
      ensures var t := Consider(s, request, k);
        ChosenSoFar(request, k + 1, t.choice, t.bestDistance, t.bestIdleDistance, t.sendingIdle)
    {
      var e := elevators[k];
      if e.state == Idle && (s.choice.None? || s.sendingIdle) {
        ConsiderIdle(request, k, s.choice, s.bestDistance, s.bestIdleDistance, s.sendingIdle);
      } else if OnTheWay(e, request) && Gap(k, request) < s.bestDistance {
        TakeOnTheWay(request, k, s.choice, s.bestDistance, s.bestIdleDistance, s.sendingIdle);
      } else {
        PassOver(request, k, s.choice, s.bestDistance, s.bestIdleDistance, s.sendingIdle);
      }
    }

    /** The car that should answer a call (its position in the fleet), or
        None when every car is busy, too far away or out of service. */
    method ElevatorOnTheWay(request: FloorRequest) returns (choice: Option<nat>)
      requires Valid()
      requires 0 <= request.floor < numFloors
      ensures choice == Pick(request)
      ensures choice.Some? ==> choice.value < |elevators| && elevators[choice.value].state != OutOfService
    {
      choice := None;
      var bestDistance := IntMax;
      var bestIdleDistance := IntMax;
      var sendingIdleElevator := false;
      for k := 0 to |elevators|
        invariant Scanned(choice, bestDistance, bestIdleDistance, sendingIdleElevator) == Scan(request, k)
      {
        var e := elevators[k];
        if e.state == OutOfService {
          continue;
        }
        var eIsCompatible := IsCompatibleDirection(e.dir, e.currentFloor, request);
        if e.state == Idle {
          if choice.None? || sendingIdleElevator {
            sendingIdleElevator := true;
            var currDistance := Distance(request.floor, e.currentFloor);
            if currDistance < bestIdleDistance {
              choice := Some(k);
              bestIdleDistance := currDistance;
            }
          }
        } else if eIsCompatible {
          var currDistance := Distance(request.floor, e.currentFloor);
          if currDistance < bestDistance && currDistance <= maxDistanceThreshold {
            choice := Some(k);
            sendingIdleElevator := false;
            bestDistance := currDistance;
          }
        }
      }
      PickSelects(request);
    }

    /** The car the selection loop picks for a call. */
    ghost function Pick(request: FloorRequest): Option<nat>
      reads this, elevators
    {
      Scan(request, |elevators|).choice
    }

    /** The loop's pick is the car the two-tier rule selects, and the only
        one: a car in the fleet that is not out of service, or none. */
    lemma PickSelects(request: FloorRequest)
      requires Valid() && 0 <= request.floor < numFloors
      ensures Selects(Pick(request), request)
      ensures forall c :: Selects(c, request) <==> c == Pick(request)
      ensures Pick(request).Some? ==>
        Pick(request).value < |elevators| && elevators[Pick(request).value].state != OutOfService
    {
      ScanChooses(request, |elevators|);
      forall c | Selects(c, request)
        ensures c == Pick(request)
      {
        SelectsUnique(c, Pick(request), request);
      }
    }

    /** The flag of the call is raised, and no other flag changed. */
    twostate predicate Raised(floor: int, dir: Direction)
      requires old(upSummons) == upSummons && old(downSummons) == downSummons
      reads this, upSummons, downSummons
    {
      && 0 <= floor < Summons(dir).Length
      && Summons(dir)[..] == old(Summons(dir)[..])[floor := true]
      && unchanged(Summons(if dir == Up then Down else Up))
    }

    /** The selection rule picks at most one car. */
    lemma SelectsUnique(a: Option<nat>, b: Option<nat>, request: FloorRequest)
      requires Selects(a, request) && Selects(b, request)
      ensures a == b
    {
      var n := |elevators|;
      if AnyOnTheWay(request, n) {
        assert NearestOnTheWay(a.value, request, n) && NearestOnTheWay(b.value, request, n);
      } else if AnyIdle(n) {
        assert NearestIdle(a.value, request, n) && NearestIdle(b.value, request, n);
      }
    }

    /** How the chosen car k answers a call from `floor`: its new target is
        the further of its target and the floor in its direction; a moving
        car only takes that target, an idle car starts a trip to it. */
    method Dispatch(k: nat, floor: int)
      requires Valid() && k < |elevators| && 0 <= floor < numFloors && elevators[k].state != OutOfService
      modifies elevators[k], this`pendingRequests, upSummons, downSummons
      ensures Valid()
      ensures forall j :: 0 <= j < |elevators| && j != k ==> unchanged(elevators[j])
      ensures old(elevators[k].state) == Moving ==>
        && elevators[k].targetFloor == Stretch(old(elevators[k].dir), old(elevators[k].targetFloor), floor)
        && elevators[k].currentFloor == old(elevators[k].currentFloor)
        && elevators[k].dir == old(elevators[k].dir) && elevators[k].state == Moving
        && elevators[k].queuedTargetFloor == old(elevators[k].queuedTargetFloor)
        && pendingRequests == old(pendingRequests) && unchanged(upSummons, downSummons)
      ensures old(elevators[k].state) == Idle ==>
        && Ended(k, old(Answering(k, floor, upSummons[..], downSummons[..])))
        && Subseq(pendingRequests, old(pendingRequests))
    {
      var e := elevators[k];
      CarValid(k);
      var newTargetFloor := if e.dir == Up then Max(e.targetFloor, floor) else Min(e.targetFloor, floor);
      if e.state == Moving {
        e.targetFloor := newTargetFloor;
      } else {
        LaunchTravel(e.currentFloor, newTargetFloor, e.dir, e.queuedTargetFloor, pendingRequests,
                     upSummons[..], downSummons[..], maxDistanceThreshold, numFloors);
        var started, visits := e.GoToFloor(newTargetFloor);
      }
      ValidAfterCar(k);
    }

    /** The trip an idle car k makes to answer a call from `floor` when the
        flags are `up` and `down`: GoToFloor towards the stretched target,
        with the car's step direction left from its previous trip. */
    ghost function Answering(k: nat, floor: int, up: seq<bool>, down: seq<bool>): Ride
      requires Valid() && k < |elevators| && 0 <= floor < numFloors
      requires |up| == numFloors && |down| == numFloors
      reads this, elevators
    {
      var e := elevators[k];
      var start := Launch(e.currentFloor, Stretch(e.dir, e.targetFloor, floor), e.dir, e.queuedTargetFloor,
                          pendingRequests, up, down);
      LaunchSane(e.currentFloor, Stretch(e.dir, e.targetFloor, floor), e.dir, e.queuedTargetFloor,
                 pendingRequests, up, down, numFloors);
      Travel(start, maxDistanceThreshold, numFloors)
    }

    /** Car k, the queue and the flags stand as the ride `t` left them. */
    ghost predicate Ended(k: nat, t: Ride)
      requires k < |elevators|
      reads this, elevators, upSummons, downSummons
    {
      var e := elevators[k];
      && e.currentFloor == t.current && e.targetFloor == t.target && e.dir == t.dir && e.state == t.state
      && e.queuedTargetFloor == t.queued && pendingRequests == t.pending
      && upSummons[..] == t.up && downSummons[..] == t.down
    }

    /** A car as built, with nothing pending, answers a call from a floor
        above the ground floor by going straight there and going idle; a
        call from the ground floor leaves it MOVING where it stands, since
        the trip loop ends before the next-leg check. */
    lemma NewCarAnswers(k: nat, floor: int, up: seq<bool>, down: seq<bool>)
      requires Valid() && k < |elevators| && 0 <= floor < numFloors
      requires |up| == numFloors && |down| == numFloors
      requires elevators[k].IsNew() && pendingRequests == []
      ensures var t := Answering(k, floor, up, down);
        && t.current == floor && t.target == floor
        && (if floor == 0 then t.state == Moving else t.state == Idle)
    {
      LaunchSane(0, floor, Up, NoFloor, [], up, down, numFloors);
      if floor == 0 {
        LaunchToOwnFloor(0, Up, NoFloor, [], up, down, maxDistanceThreshold, numFloors);
      } else {
        LaunchStraight(0, floor, Up, up, down, maxDistanceThreshold, numFloors);
      }
    }

    /** A car of a valid controller is valid on its own. */
    lemma CarValid(k: nat)
      requires Valid() && k < |elevators|
      ensures elevators[k].controller == this && elevators[k].Valid()
    {
    }

    /** Changing one car, and keeping it bound and placed, keeps the
        controller valid. */
    twostate lemma ValidAfterCar(k: nat)
      requires old(Valid()) && Building() && k < |elevators|
      requires elevators == old(elevators) && numElevators == old(numElevators) && numFloors == old(numFloors)
      requires forall j :: 0 <= j < |elevators| && j != k ==> unchanged(elevators[j])
      requires elevators[k].controller == this && elevators[k].PlacedIn(numFloors)
      ensures Valid()
    {
    }

    /** The flags of one direction once the flag of `floor` is raised, when
        `raise` says the call goes that way. */
    function RaisedFlags(flags: seq<bool>, floor: int, raise: bool): (r: seq<bool>)
      requires 0 <= floor < |flags|
      ensures |r| == |flags| && (raise ==> r[floor]) && (!raise ==> r == flags)
      ensures forall f :: 0 <= f < |flags| && f != floor ==> r[f] == flags[f]
    {
      if raise then flags[floor := true] else flags
    }

    /** Raises the flag of a call. */
    method Raise(floor: int, dir: Direction)
      requires 0 <= floor < numFloors && Building()
      modifies upSummons, downSummons
      ensures Raised(floor, dir)
    {
      var summons := if dir == Up then upSummons else downSummons;
      summons[floor] := true;
    }

    /** An external call from `floor` for direction `dir`: raise the flag,
        then extend the chosen car's leg, start the chosen idle car, or queue
        the call when no car is chosen. */
    method ElevatorSummon(floor: int, dir: Direction) returns (r: Outcome)
      requires Valid()
      modifies this`pendingRequests, upSummons, downSummons, elevators
      ensures Valid()
      ensures r.Fail? <==> !(0 <= floor < numFloors)
      ensures r.Fail? ==> r.error == FloorRange && pendingRequests == old(pendingRequests)
                          && unchanged(upSummons, downSummons) && unchanged(elevators)
      ensures r.Pass? ==> |pendingRequests| <= |old(pendingRequests)| + 1
      // no car can answer: the call waits at the end of the queue
      ensures r.Pass? && old(Pick(FloorRequest(floor, dir))).None? ==>
        && pendingRequests == old(pendingRequests) + [FloorRequest(floor, dir)]
        && unchanged(elevators) && Raised(floor, dir)
      // the chosen car answers, no other car changes
      ensures r.Pass? && old(Pick(FloorRequest(floor, dir))).Some? ==>
        var k := old(Pick(FloorRequest(floor, dir))).value;
        && k < |elevators|
        && (forall j :: 0 <= j < |elevators| && j != k ==> unchanged(elevators[j]))
        && (old(elevators[k].state) == Moving ==>
              && pendingRequests == old(pendingRequests) && Raised(floor, dir)
              && elevators[k].targetFloor == Stretch(old(elevators[k].dir), old(elevators[k].targetFloor), floor)
              && elevators[k].currentFloor == old(elevators[k].currentFloor)
              && elevators[k].dir == old(elevators[k].dir) && elevators[k].state == Moving
              && elevators[k].queuedTargetFloor == old(elevators[k].queuedTargetFloor))
        // an idle car makes the whole trip, starting with the call's flag up
        && (old(elevators[k].state) == Idle ==>
              && Ended(k, old(Answering(k, floor, RaisedFlags(upSummons[..], floor, dir == Up),
                                              RaisedFlags(downSummons[..], floor, dir == Down))))
              && Subseq(pendingRequests, old(pendingRequests)))
    {
      if floor < 0 || floor >= numFloors {
        return Fail(FloorRange);
      }
      ghost var up, down := RaisedFlags(upSummons[..], floor, dir == Up), RaisedFlags(downSummons[..], floor, dir == Down);
      Raise(floor, dir);
      assert upSummons[..] == up && downSummons[..] == down;
      Answer(FloorRequest(floor, dir));
      r := Pass;
    }

    /** The rest of a call, once its flag is up: the selected car answers
        it, or it joins the end of the queue. */
    method Answer(request: FloorRequest)
      requires Valid() && 0 <= request.floor < numFloors
      modifies this`pendingRequests, upSummons, downSummons, elevators
      ensures Valid()
      ensures |pendingRequests| <= |old(pendingRequests)| + 1
      ensures old(Pick(request)).None? ==>
        && pendingRequests == old(pendingRequests) + [request]
        && unchanged(elevators) && unchanged(upSummons, downSummons)
      ensures old(Pick(request)).Some? ==>
        var k := old(Pick(request)).value;
        && k < |elevators|
        && (forall j :: 0 <= j < |elevators| && j != k ==> unchanged(elevators[j]))
        && (old(elevators[k].state) == Moving ==>
              && pendingRequests == old(pendingRequests) && unchanged(upSummons, downSummons)
              && elevators[k].targetFloor == Stretch(old(elevators[k].dir), old(elevators[k].targetFloor), request.floor)
              && elevators[k].currentFloor == old(elevators[k].currentFloor)
              && elevators[k].dir == old(elevators[k].dir) && elevators[k].state == Moving
              && elevators[k].queuedTargetFloor == old(elevators[k].queuedTargetFloor))
        && (old(elevators[k].state) == Idle ==>
              && Ended(k, old(Answering(k, request.floor, upSummons[..], downSummons[..])))
              && Subseq(pendingRequests, old(pendingRequests)))
    {
      var choice := ElevatorOnTheWay(request);
      if choice.None? {
        pendingRequests := pendingRequests + [request];
      } else {
        // The selection never returns an out-of-service car, so the
        // ElevatorStateException branch of the source cannot be taken.
        ghost var wasIdle := elevators[choice.value].state == Idle;
        Dispatch(choice.value, request.floor);
        if wasIdle {
          SubseqLength(pendingRequests, old(pendingRequests));
        }
      }
    }
  }

  /** One car: its position, its target, its direction and state, and a
      single slot for a floor requested from inside the car behind its
      direction of travel (NoFloor when empty). */
  class Elevator {
    var currentFloor: int
    var targetFloor: int
    var dir: Direction
    var state: ElevatorState
    var controller: Controller
    var queuedTargetFloor: int

    /** A car as built: idle at floor 0, heading up, nothing queued. */
    predicate IsNew()
      reads this
    {
      currentFloor == 0 && targetFloor == 0 && dir == Up && state == Idle && queuedTargetFloor == NoFloor
    }

    constructor (controller: Controller)
      ensures this.controller == controller && IsNew()
    {
      currentFloor := 0;
      targetFloor := 0;
      dir := Up;
      state := Idle;
      this.controller := controller;
      queuedTargetFloor := NoFloor;
    }

    /** Floors of the building for the position, the target and the queued
        slot, and a target on the side the car is heading. */
    ghost predicate PlacedIn(n: int)
      reads this
    {
      && OnBoard(currentFloor, n)
      && OnBoard(targetFloor, n)
      && (queuedTargetFloor == NoFloor || 0 <= queuedTargetFloor < n)
      && Heading(dir, currentFloor, targetFloor)
    }

    ghost predicate Valid()
      reads this, controller
    {
      controller.Building() && PlacedIn(controller.numFloors)
    }

    /** The fields the in-car button reads and writes. */
    function Snapshot(): Car
      reads this
    {
      Car(currentFloor, targetFloor, dir, queuedTargetFloor)
    }

    /** The raw state setter, the only way a car becomes OutOfService. */
    method SetState(s: ElevatorState)
      modifies this`state
      ensures state == s
    {
      state := s;
    }

    /** Binds the car to a controller. */
    method SetInstance(c: Controller)
      modifies this`controller
      ensures controller == c
    {
      controller := c;
    }

    /** A destination chosen inside the car: out-of-range floors are
        refused; otherwise the press policy extends the leg or fills the
        queued slot. The car's state is not consulted, so an idle car can
        get a queued floor too. */
    method FloorButtonPressed(floorRequested: int) returns (r: Outcome)
      requires Valid()
      modifies this`targetFloor, this`queuedTargetFloor
      ensures Valid()
      ensures r.Fail? <==> !(0 <= floorRequested < controller.numFloors)
      ensures r.Fail? ==> r.error == FloorRange && Snapshot() == old(Snapshot())
      ensures r.Pass? ==> Snapshot() == Press(old(Snapshot()), floorRequested)
    {
      if floorRequested < 0 || floorRequested >= controller.numFloors {
        return Fail(FloorRange);
      }
      if dir == Up {
        if floorRequested >= currentFloor {
          targetFloor := Max(targetFloor, floorRequested);
        } else if queuedTargetFloor == NoFloor {
          queuedTargetFloor := floorRequested;
        } else {
          queuedTargetFloor := Min(queuedTargetFloor, floorRequested);
        }
      } else {
        if floorRequested <= currentFloor {
          targetFloor := Min(targetFloor, floorRequested);
        } else if queuedTargetFloor == NoFloor {
          queuedTargetFloor := floorRequested;
        } else {
          queuedTargetFloor := Max(queuedTargetFloor, floorRequested);
        }
      }
      PressKeepsPlacement(old(Snapshot()), floorRequested, controller.numFloors);
      r := Pass;
    }

    /** The pass of ClaimPendingRequests over the queue, reading the live
        target at every entry: an entry on the way is removed and may extend
        the target, any other entry stays in place. */
    method SweepPending(isGoingUp: bool, threshold: int)
      requires isGoingUp == (dir == Up)
      modifies this`targetFloor, controller`pendingRequests
      ensures Claimed(controller.pendingRequests, targetFloor)
           == Claim(old(controller.pendingRequests), currentFloor, old(targetFloor), dir, isGoingUp, threshold)
    {
      ghost var pending := controller.pendingRequests;
      ghost var whole := Claim(pending, currentFloor, targetFloor, dir, isGoingUp, threshold);
      ghost var kept: seq<FloorRequest> := [];
      ghost var m := 0;
      ClaimingStart(pending, currentFloor, targetFloor, dir, isGoingUp, threshold);
      var i := 0;
      while i < |controller.pendingRequests|
        invariant i == |kept|
        invariant ClaimingAt(whole, controller.pendingRequests, kept, pending, m,
                             currentFloor, targetFloor, dir, isGoingUp, threshold)
        decreases |pending| - m
      {
        ghost var request := controller.pendingRequests[i];
        var taken := ClaimEntry(whole, kept, pending, m, i, isGoingUp, threshold);
        if !taken {
          kept := kept + [request];
          i := i + 1;
        }
        m := m + 1;
      }
      ClaimingDone(whole, controller.pendingRequests, kept, pending, m,
                   currentFloor, targetFloor, dir, isGoingUp, threshold);
    }

    /** One entry of that pass, entry i, the first one not yet examined: on
        the way, it is removed and may extend the target; otherwise it stays
        where it is. The pass stays equal to the claim of the whole queue. */
    method ClaimEntry(ghost whole: Claimed, ghost kept: seq<FloorRequest>, ghost pending: seq<FloorRequest>,
                      ghost m: int, i: int, isGoingUp: bool, threshold: int)
      returns (taken: bool)
      requires i == |kept| < |controller.pendingRequests|
      requires ClaimingAt(whole, controller.pendingRequests, kept, pending, m,
                          currentFloor, targetFloor, dir, isGoingUp, threshold)
      modifies this`targetFloor, controller`pendingRequests
      ensures taken ==> ClaimingAt(whole, controller.pendingRequests, kept, pending, m + 1,
                                   currentFloor, targetFloor, dir, isGoingUp, threshold)
      ensures !taken ==>
        && controller.pendingRequests == old(controller.pendingRequests) && targetFloor == old(targetFloor)
        && ClaimingAt(whole, controller.pendingRequests, kept + [controller.pendingRequests[i]], pending, m + 1,
                      currentFloor, targetFloor, dir, isGoingUp, threshold)
    {
      ClaimingNext(whole, controller.pendingRequests, kept, pending, m,
                   currentFloor, targetFloor, dir, isGoingUp, threshold);
      var request := controller.pendingRequests[i];
      taken := InRange(request, currentFloor, targetFloor, dir, threshold);
      if taken {
        targetFloor := if isGoingUp then Max(targetFloor, request.floor) else Min(targetFloor, request.floor);
        controller.pendingRequests := controller.pendingRequests[..i] + controller.pendingRequests[i + 1..];
      }
    }

    /** Absorbs the pending calls that lie on the way of the leg just begun,
        removing them from the queue and pulling the target out to them. */
    method ClaimPendingRequests()
      requires Valid()
      requires (dir == Up) == (targetFloor >= currentFloor)
      modifies this`targetFloor, controller`pendingRequests
      ensures Valid()
      ensures Claimed(controller.pendingRequests, targetFloor)
           == Claim(old(controller.pendingRequests), currentFloor, old(targetFloor), dir,
                    old(targetFloor) >= currentFloor, controller.maxDistanceThreshold)
    {
      var isGoingUp := targetFloor >= currentFloor;
      ghost var pending := controller.pendingRequests;
      SweepPending(isGoingUp, controller.maxDistanceThreshold);
      ClaimKeepsPlacement(pending, currentFloor, old(targetFloor), dir, controller.maxDistanceThreshold,
                          controller.numFloors);
    }

    /** What the car does at the floor before its target: go idle when the
        queued slot is empty and nothing is pending; otherwise take the
        queued floor, or else the oldest pending call (by waiting time, not
        distance), turn towards it and claim what lies on the way. The
        queued slot is read but never emptied. */
    method NextLeg() returns (started: bool)
      requires Valid()
      modifies this`targetFloor, this`dir, this`state, controller`pendingRequests
      ensures Valid()
      ensures var plan := PlanLeg(currentFloor, queuedTargetFloor, old(controller.pendingRequests),
                                  controller.maxDistanceThreshold);
        if plan.Rest? then
          && !started && state == Idle && targetFloor == old(targetFloor) && dir == old(dir)
          && controller.pendingRequests == old(controller.pendingRequests)
        else
          && started && state == old(state)
          && targetFloor == plan.target && dir == plan.dir && controller.pendingRequests == plan.kept
    {
      var pendingRequests := controller.pendingRequests;
      if queuedTargetFloor == NoFloor && |pendingRequests| == 0 {
        state := Idle;
        return false;
      }
      if queuedTargetFloor >= 0 {
        targetFloor := queuedTargetFloor;
      } else {
        targetFloor := pendingRequests[0].floor;
        controller.pendingRequests := pendingRequests[1..];
      }
      dir := if currentFloor > targetFloor then Down else Up;
      assert pendingRequests != [] ==> pendingRequests[0] in pendingRequests;
      ClaimPendingRequests();
      started := true;
      PlanLegInBuilding(currentFloor, queuedTargetFloor, pendingRequests, controller.maxDistanceThreshold,
                        controller.numFloors);
    }

    /** The state the trip loop works on, with its loop variables. */
    ghost function RideOf(i: int, goingUp: bool, visits: seq<Visit>): Ride
      reads this, controller, controller.upSummons, controller.downSummons
    {
      Ride(currentFloor, targetFloor, dir, state, queuedTargetFloor, controller.pendingRequests,
           controller.upSummons[..], controller.downSummons[..], i, goingUp, visits)
    }

    /** The car reaches floor i of the loop: it stands there, stops for a
        pickup when the flag of the step direction is raised there, and
        clears that flag. */
    method Reach(ghost before: Ride, i: int, isGoingUp: bool, summons: array<bool>, visits: seq<Visit>)
      returns (visits': seq<Visit>)
      requires controller.Building()
      requires summons == controller.Summons(StepOf(isGoingUp))
      requires RideOf(i, isGoingUp, visits) == before
      requires 0 <= i < controller.numFloors
      modifies this`currentFloor, controller.upSummons, controller.downSummons
      ensures controller.Building()
      ensures RideOf(i, isGoingUp, visits') == Arrive(before)
    {
      var v := Visit(i, StepOf(isGoingUp), summons[i]);  // PickUpPassenger() when the flag is raised
      visits' := visits + [v];
      currentFloor := i;
      summons[i] := false;
      assert controller.upSummons[..] == if isGoingUp then before.up[i := false] else before.up;
      assert controller.downSummons[..] == if isGoingUp then before.down else before.down[i := false];
    }

    /** One pass of the trip loop of GoToFloor: reach floor i, pick the next
        leg at the floor before the target, and advance the counter. */
    method ServeFloor(ghost before: Ride, i: int, isGoingUp: bool, increment: int, summons: array<bool>,
                      visits: seq<Visit>)
      returns (i': int, isGoingUp': bool, increment': int, summons': array<bool>, visits': seq<Visit>)
      requires controller.Building()
      requires increment == Inc(isGoingUp) && summons == controller.Summons(StepOf(isGoingUp))
      requires RideOf(i, isGoingUp, visits) == before
      requires Sane(before, controller.numFloors) && Running(before)
      modifies this`currentFloor, this`targetFloor, this`dir, this`state,
               controller`pendingRequests, controller.upSummons, controller.downSummons
      ensures controller.Building()
      ensures increment' == Inc(isGoingUp') && summons' == controller.Summons(StepOf(isGoingUp'))
      ensures RideOf(i', isGoingUp', visits') == Step(before, controller.maxDistanceThreshold)
    {
      assert 0 <= i < controller.numFloors && Heading(dir, i, targetFloor);
      i', isGoingUp', increment', summons' := i, isGoingUp, increment, summons;
      visits' := Reach(before, i, isGoingUp, summons, visits);
      ghost var arrived := Arrive(before);
      if i == (if isGoingUp then targetFloor - 1 else targetFloor + 1) {
        var started := NextLeg();
        if started {
          i' := currentFloor;
          isGoingUp' := dir == Up;
          increment' := if isGoingUp' then 1 else -1;
          summons' := if isGoingUp' then controller.upSummons else controller.downSummons;
        }
      }
      assert RideOf(i', isGoingUp', visits') == Turn(arrived, controller.maxDistanceThreshold);
      i' := i' + increment';
    }

    /** The trip loop of GoToFloor, from counter i0 in step direction
        goingUp0: it runs the trip function on the car's ride and returns
        the floors reached. */
    method Drive(ghost start: Ride, i0: int, goingUp0: bool, increment0: int, summons0: array<bool>)
      returns (visits: seq<Visit>)
      requires controller.Building()
      requires increment0 == Inc(goingUp0) && summons0 == controller.Summons(StepOf(goingUp0))
      requires RideOf(i0, goingUp0, []) == start && Sane(start, controller.numFloors)
      modifies this`currentFloor, this`targetFloor, this`dir, this`state,
               controller`pendingRequests, controller.upSummons, controller.downSummons
      ensures controller.Building()
      ensures var t := Travel(start, controller.maxDistanceThreshold, controller.numFloors);
        RideOf(t.i, t.goingUp, visits) == t
    {
      ghost var n := controller.numFloors;
      ghost var threshold := controller.maxDistanceThreshold;
      ghost var ride := start;
      ghost var final := Travel(ride, threshold, n);
      var i, isGoingUp, increment, summons := i0, goingUp0, increment0, summons0;
      visits := [];
      while if isGoingUp then i <= targetFloor else i >= targetFloor
        invariant controller.Building()
        invariant increment == Inc(isGoingUp)
        invariant summons == controller.Summons(StepOf(isGoingUp))
        invariant RideOf(i, isGoingUp, visits) == ride
        invariant Sane(ride, n) && Travel(ride, threshold, n) == final
        decreases |ride.pending|, Phase(ride), LegLeft(ride)
      {
        TravelStep(ride, threshold, n);
        i, isGoingUp, increment, summons, visits := ServeFloor(ride, i, isGoingUp, increment, summons, visits);
        ride := Step(ride, threshold);
      }
    }

    /** The trip of GoToFloor once its checks have passed: the new target,
        the MOVING state, the direction towards the target, the step
        direction of the previous trip, and the trip loop. */
    method Depart(floor: int) returns (visits: seq<Visit>)
      requires Valid() && 0 <= floor < controller.numFloors && state == Idle
      modifies this`currentFloor, this`targetFloor, this`dir, this`state,
               controller`pendingRequests, controller.upSummons, controller.downSummons
      ensures Valid()
      ensures var t := Travel(Launch(old(currentFloor), floor, old(dir), queuedTargetFloor,
                                     old(controller.pendingRequests), old(controller.upSummons[..]),
                                     old(controller.downSummons[..])),
                              controller.maxDistanceThreshold, controller.numFloors);
        RideOf(t.i, t.goingUp, visits) == t
    {
      ghost var n := controller.numFloors;
      ghost var start := Launch(currentFloor, floor, dir, queuedTargetFloor, controller.pendingRequests,
                                controller.upSummons[..], controller.downSummons[..]);
      LaunchSane(currentFloor, floor, dir, queuedTargetFloor, controller.pendingRequests,
                 controller.upSummons[..], controller.downSummons[..], n);
      targetFloor := floor;
      state := Moving;
      // The step direction comes from the direction of the previous trip.
      var isGoingUp := dir == Up;
      dir := if targetFloor >= currentFloor then Up else Down;
      var summons := if isGoingUp then controller.upSummons else controller.downSummons;
      var increment := if isGoingUp then 1 else -1;
      var i := currentFloor;
      assert RideOf(i, isGoingUp, []) == start;
      visits := Drive(start, i, isGoingUp, increment, summons);
    }

    /** Starts a trip of an idle car and runs it to completion: the car steps
        floor by floor, clearing at each floor the flag of its step direction
        and stopping for a pickup when that flag was raised; at the floor
        before each target it picks its next leg (NextLeg) and carries on
        within the same call. `visits` records the floors reached. */
    method GoToFloor(floor: int) returns (r: Outcome, visits: seq<Visit>)
      requires Valid()
      modifies this`currentFloor, this`targetFloor, this`dir, this`state,
               controller`pendingRequests, controller.upSummons, controller.downSummons
      ensures Valid()
      ensures r.Fail? <==> !(0 <= floor < controller.numFloors) || old(state) != Idle
      ensures r.Fail? ==>
        && r.error == (if 0 <= floor < controller.numFloors then BadElevatorState else FloorRange)
        && visits == [] && Snapshot() == old(Snapshot()) && state == old(state)
        && controller.pendingRequests == old(controller.pendingRequests)
        && unchanged(controller.upSummons, controller.downSummons)
      // the loop is the trip function
      ensures r.Pass? ==>
        var t := Travel(Launch(old(currentFloor), floor, old(dir), queuedTargetFloor,
                               old(controller.pendingRequests), old(controller.upSummons[..]),
                               old(controller.downSummons[..])),
                        controller.maxDistanceThreshold, controller.numFloors);
        RideOf(t.i, t.goingUp, visits) == t
    {
      if floor < 0 || floor >= controller.numFloors {
        return Fail(FloorRange), [];
      }
      if state != Idle {
        return Fail(BadElevatorState), [];
      }
      visits := Depart(floor);
      r := Pass;
    }
  }
}
