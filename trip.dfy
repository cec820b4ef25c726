/** The trip loop of a car as a pure transition system: one step per floor
    reached, the next-leg choice at the floor before each target, and the
    summon flags and pickups along the way. */
module Trip {
  import opened Requests
  import opened Routing

  /** One floor reached by the traversal loop: the floor, the direction of
      the step that reached it, and whether the car stopped there to pick up
      a waiting caller. The door and wait calls of a pickup are left out;
      the flag stands for the whole pickup sequence. */
  datatype Visit = Visit(floor: int, heading: Direction, pickup: bool)

  /** The traversal has reached `floor` stepping in direction `heading`. */
  ghost predicate Visited(visits: seq<Visit>, floor: int, heading: Direction)
  {
    exists k :: 0 <= k < |visits| && visits[k].floor == floor && visits[k].heading == heading
  }

  /** Entry `k` is the first time its floor is reached in its direction. */
  ghost predicate FirstVisit(visits: seq<Visit>, k: int)
    requires 0 <= k < |visits|
  {
    forall j :: 0 <= j < k ==> !(visits[j].floor == visits[k].floor && visits[j].heading == visits[k].heading)
  }

  lemma VisitedAppend(visits: seq<Visit>, v: Visit)
    ensures forall f, d :: Visited(visits + [v], f, d) <==> Visited(visits, f, d) || (v.floor == f && v.heading == d)
  {
    forall f, d | Visited(visits + [v], f, d)
      ensures Visited(visits, f, d) || (v.floor == f && v.heading == d)
    {
      var k :| 0 <= k < |visits + [v]| && (visits + [v])[k].floor == f && (visits + [v])[k].heading == d;
      if k < |visits| {
        assert visits[k] == (visits + [v])[k];
      }
    }
    forall f, d | Visited(visits, f, d)
      ensures Visited(visits + [v], f, d)
    {
      var k :| 0 <= k < |visits| && visits[k].floor == f && visits[k].heading == d;
      assert (visits + [v])[k] == visits[k];
    }
    assert (visits + [v])[|visits|] == v;
  }

  /** The flags of direction `d` once every floor reached in that
      direction has been cleared, one visit at a time. */
  function Cleared(flags: seq<bool>, visits: seq<Visit>, d: Direction): (r: seq<bool>)
    ensures |r| == |flags|
    decreases |visits|
  {
    if visits == [] then flags
    else
      var prev := Cleared(flags, visits[..|visits| - 1], d);
      var v := visits[|visits| - 1];
      if v.heading == d && 0 <= v.floor < |prev| then prev[v.floor := false] else prev
  }

  /** After a traversal a flag is up exactly when it was up before and its
      floor was not reached in its direction. */
  lemma {:induction false} ClearedIsUnvisited(flags: seq<bool>, visits: seq<Visit>, d: Direction)
    ensures forall f :: 0 <= f < |flags| ==>
      Cleared(flags, visits, d)[f] == (flags[f] && !Visited(visits, f, d))
    decreases |visits|
  {
    if visits != [] {
      var prefix := visits[..|visits| - 1];
      var v := visits[|visits| - 1];
      ClearedIsUnvisited(flags, prefix, d);
      assert prefix + [v] == visits;
      VisitedAppend(prefix, v);
    }
  }

  /** One more visit clears at most the flag of its own floor and heading. */
  lemma ClearedStep(flags: seq<bool>, prefix: seq<Visit>, v: Visit, d: Direction)
    requires 0 <= v.floor < |flags|
    ensures Cleared(flags, prefix + [v], d)
         == if v.heading == d then Cleared(flags, prefix, d)[v.floor := false] else Cleared(flags, prefix, d)
  {
    assert (prefix + [v])[..|prefix|] == prefix;
  }

  /** The flags of one direction, given both. */
  function FlagsOf(d: Direction, up: seq<bool>, down: seq<bool>): seq<bool>
  {
    if d == Up then up else down
  }

  /** Every visit stops for a pickup exactly when the flag of its floor and
      heading was still up when the car got there, starting from the flags
      `up` and `down`. */
  ghost predicate Pickups(visits: seq<Visit>, up: seq<bool>, down: seq<bool>)
    decreases |visits|
  {
    visits == [] ||
      var prefix := visits[..|visits| - 1];
      var v := visits[|visits| - 1];
      var flags := Cleared(FlagsOf(v.heading, up, down), prefix, v.heading);
      && Pickups(prefix, up, down)
      && 0 <= v.floor < |flags|
      && v.pickup == flags[v.floor]
  }

  /** A visit that stops exactly when its flag is still up extends a
      traversal whose pickups are right. */
  lemma PickupsStep(prefix: seq<Visit>, v: Visit, up: seq<bool>, down: seq<bool>)
    requires Pickups(prefix, up, down)
    requires 0 <= v.floor < |FlagsOf(v.heading, up, down)|
    requires v.pickup == Cleared(FlagsOf(v.heading, up, down), prefix, v.heading)[v.floor]
    ensures Pickups(prefix + [v], up, down)
  {
    assert (prefix + [v])[..|prefix|] == prefix;
  }

  lemma FirstVisitIsUnvisitedPrefix(visits: seq<Visit>, k: int)
    requires 0 <= k < |visits|
    ensures FirstVisit(visits, k) <==> !Visited(visits[..k], visits[k].floor, visits[k].heading)
  {
    if !FirstVisit(visits, k) {
      var j :| 0 <= j < k && visits[j].floor == visits[k].floor && visits[j].heading == visits[k].heading;
      assert visits[..k][j] == visits[j];
    }
  }

  /** Whether an entry is a first visit depends only on the entries before it. */
  lemma FirstVisitInPrefix(visits: seq<Visit>, m: int, k: int)
    requires 0 <= k < m <= |visits|
    ensures visits[..m][k] == visits[k]
    ensures FirstVisit(visits[..m], k) == FirstVisit(visits, k)
  {
    assert forall j :: 0 <= j < k ==> visits[..m][j] == visits[j];
  }

  /** The pickups of a traversal are the first arrivals, in a direction, at
      a floor whose flag for that direction was up at the start. */
  lemma {:induction false} PickupsAreFirstVisits(visits: seq<Visit>, up: seq<bool>, down: seq<bool>)
    requires Pickups(visits, up, down)
    ensures forall k :: 0 <= k < |visits| ==>
      && 0 <= visits[k].floor < |FlagsOf(visits[k].heading, up, down)|
      && visits[k].pickup == (FlagsOf(visits[k].heading, up, down)[visits[k].floor] && FirstVisit(visits, k))
    decreases |visits|
  {
    if visits != [] {
      var last := |visits| - 1;
      var prefix := visits[..last];
      var v := visits[last];
      PickupsAreFirstVisits(prefix, up, down);
      forall k | 0 <= k < |visits|
        ensures 0 <= visits[k].floor < |FlagsOf(visits[k].heading, up, down)|
        ensures visits[k].pickup == (FlagsOf(visits[k].heading, up, down)[visits[k].floor] && FirstVisit(visits, k))
      {
        if k < last {
          FirstVisitInPrefix(visits, last, k);
        } else {
          ClearedIsUnvisited(FlagsOf(v.heading, up, down), prefix, v.heading);
          FirstVisitIsUnvisitedPrefix(visits, last);
        }
      }
    }
  }

  // ----------------------------------------------------------------------
  // The trip loop
  // ----------------------------------------------------------------------

  /** The direction of a step. */
  function StepOf(up: bool): Direction
  {
    if up then Up else Down
  }

  /** The loop increment for a step direction. */
  function Inc(up: bool): int
  {
    if up then 1 else -1
  }

  /** Everything the trip loop reads and writes: the car's fields, the
      controller's queue and flags, the loop counter with its step direction
      (which may differ from the car's direction on the first leg), and the
      floors reached so far. */
  datatype Ride = Ride(current: int, target: int, dir: Direction, state: ElevatorState, queued: int,
                       pending: seq<FloorRequest>, up: seq<bool>, down: seq<bool>,
                       i: int, goingUp: bool, visits: seq<Visit>)

  /** The loop guard. */
  predicate Running(r: Ride)
  {
    if r.goingUp then r.i <= r.target else r.i >= r.target
  }

  /** What holds of a ride before every check of the guard in a building of
      `n` floors. The step direction and the car's direction disagree only
      on a first leg that never runs or that starts and ends on the car's
      floor; an idle car has nothing queued or pending and is at, or one step
      before, its target. */
  predicate Sane(r: Ride, n: int)
  {
    SanePlace(r, n) && SaneCounter(r, n)
  }

  predicate SanePlace(r: Ride, n: int)
  {
    && 0 < n && |r.up| == n && |r.down| == n
    && 0 <= r.current < n && 0 <= r.target < n
    && (r.queued == NoFloor || 0 <= r.queued < n)
    && (forall x :: x in r.pending ==> 0 <= x.floor < n)
    && Heading(r.dir, r.current, r.target)
  }

  predicate SaneCounter(r: Ride, n: int)
  {
    && (r.goingUp ==> 0 <= r.i) && (!r.goingUp ==> r.i < n)
    && (r.goingUp != (r.dir == Up) ==>
          if r.goingUp then r.i > r.target else r.i < r.target || r.i == r.target == r.current)
    && (r.state == Idle || r.state == Moving)
    && (r.state == Idle ==>
          && r.queued == NoFloor && r.pending == []
          && (r.i == r.target || (r.i == r.target + Inc(r.goingUp) && r.current == r.target)))
  }

  /** The ride at the start of the loop for a trip to `floor` of an idle car
      that last travelled in direction `dir`: the step direction is the old
      direction, the car's direction is recomputed from the new target. */
  function Launch(current: int, floor: int, dir: Direction, queued: int,
                  pending: seq<FloorRequest>, up: seq<bool>, down: seq<bool>): Ride
  {
    Ride(current, floor, if floor >= current then Up else Down, Moving, queued, pending, up, down,
         current, dir == Up, [])
  }

  /** The first part of a pass of the loop body: reach floor i, stopping
      for a pickup when the flag of the step direction is up, then clear it. */
  function Arrive(r: Ride): (a: Ride)
    requires 0 <= r.i < |r.up| == |r.down|
    ensures a.current == r.i && |a.visits| == |r.visits| + 1
  {
    var flags := FlagsOf(StepOf(r.goingUp), r.up, r.down);
    r.(current := r.i,
       up := if r.goingUp then r.up[r.i := false] else r.up,
       down := if r.goingUp then r.down else r.down[r.i := false],
       visits := r.visits + [Visit(r.i, StepOf(r.goingUp), flags[r.i])])
  }

  /** The second part: at the floor before the target, choose the next leg,
      or go idle when there is none. */
  function Turn(a: Ride, threshold: int): (t: Ride)
    requires a.queued == NoFloor || 0 <= a.queued
    ensures t.current == a.current && t.up == a.up && t.down == a.down && t.visits == a.visits
  {
    if a.i != (if a.goingUp then a.target - 1 else a.target + 1) then a
    else
      var plan := PlanLeg(a.current, a.queued, a.pending, threshold);
      if plan.Rest? then a.(state := Idle)
      else a.(target := plan.target, dir := plan.dir, pending := plan.kept,
              i := a.current, goingUp := plan.dir == Up)
  }

  /** One pass of the loop body: arrive, turn, and advance the counter. */
  function Step(r: Ride, threshold: int): Ride
    requires 0 <= r.i < |r.up| == |r.down|
    requires r.queued == NoFloor || 0 <= r.queued
  {
    var t := Turn(Arrive(r), threshold);
    t.(i := t.i + Inc(t.goingUp))
  }

  /** Second component of the termination measure: 0 while the car heads
      for its queued floor. */
  function Phase(r: Ride): int
  {
    if r.queued != NoFloor && r.target == r.queued then 0 else 1
  }

  /** Third component: the floors left on the current leg. */
  function LegLeft(r: Ride): int
  {
    if r.goingUp then r.target - r.i else r.i - r.target
  }

  lemma StepSane(r: Ride, threshold: int, n: int)
    requires Sane(r, n) && Running(r)
    ensures Sane(Step(r, threshold), n)
    ensures Step(r, threshold).queued == r.queued
  {
    if r.i == (if r.goingUp then r.target - 1 else r.target + 1) {
      if r.queued != NoFloor || r.pending != [] {
        PlanLegHeading(r.i, r.queued, r.pending, threshold);
        PlanLegInBuilding(r.i, r.queued, r.pending, threshold, n);
      }
    }
  }

  /** Every pass shortens the queue, or starts heading for the queued floor,
      or brings the car one floor closer to its target. */
  lemma StepProgress(r: Ride, threshold: int, n: int)
    requires Sane(r, n) && Running(r)
    ensures var s := Step(r, threshold);
      || |s.pending| < |r.pending|
      || (|s.pending| == |r.pending| && Phase(s) < Phase(r))
      || (|s.pending| == |r.pending| && Phase(s) == Phase(r) && 0 <= LegLeft(s) + 1 == LegLeft(r))
      || (|s.pending| == |r.pending| && Phase(s) == Phase(r) && LegLeft(s) < LegLeft(r) && 0 <= LegLeft(r))
  {
    if r.i == (if r.goingUp then r.target - 1 else r.target + 1) {
      if r.queued != NoFloor || r.pending != [] {
        PlanLegProgress(r.i, r.queued, r.pending, threshold);
        PlanLegInBuilding(r.i, r.queued, r.pending, threshold, n);
      }
    }
  }

  /** The whole loop: a trip runs until the guard fails, and ends in a sane
      state; a car that went idle stands at its target with nothing queued
      or pending; the queued slot is never emptied. */
  function Travel(r: Ride, threshold: int, n: int): (t: Ride)
    requires Sane(r, n)
    ensures Sane(t, n) && !Running(t)
    ensures t.queued == r.queued
    ensures t.state == Idle ==> t.current == t.target && t.pending == [] && t.queued == NoFloor
    decreases |r.pending|, Phase(r), LegLeft(r)
  {
    if !Running(r) then r
    else
      StepSane(r, threshold, n);
      StepProgress(r, threshold, n);
      Travel(Step(r, threshold), threshold, n)
  }

  /** A pass of a running loop keeps the invariant, lowers the measure, and
      leaves the rest of the trip to the new ride. */
  lemma TravelStep(r: Ride, threshold: int, n: int)
    requires Sane(r, n) && Running(r)
    ensures var s := Step(r, threshold);
      && Sane(s, n)
      && (|s.pending| < |r.pending|
          || (|s.pending| == |r.pending| && Phase(s) < Phase(r))
          || (|s.pending| == |r.pending| && Phase(s) == Phase(r) && LegLeft(s) < LegLeft(r) && 0 <= LegLeft(r)))
      && Travel(r, threshold, n) == Travel(s, threshold, n)
  {
    StepSane(r, threshold, n);
    StepProgress(r, threshold, n);
  }

  // ----------------------------------------------------------------------
  // Properties of a trip
  // ----------------------------------------------------------------------

  /** The flags and pickups of a ride are those of its visits, starting from
      the flags `up0` and `down0`. */
  ghost predicate Traced(r: Ride, up0: seq<bool>, down0: seq<bool>)
  {
    && r.up == Cleared(up0, r.visits, Up)
    && r.down == Cleared(down0, r.visits, Down)
    && Pickups(r.visits, up0, down0)
  }

  lemma StepTraced(r: Ride, threshold: int, n: int, up0: seq<bool>, down0: seq<bool>)
    requires Sane(r, n) && Running(r)
    requires |up0| == n && |down0| == n
    requires Traced(r, up0, down0)
    ensures Traced(Step(r, threshold), up0, down0)
  {
    var flags := FlagsOf(StepOf(r.goingUp), r.up, r.down);
    var v := Visit(r.i, StepOf(r.goingUp), flags[r.i]);
    ClearedStep(up0, r.visits, v, Up);
    ClearedStep(down0, r.visits, v, Down);
    PickupsStep(r.visits, v, up0, down0);
  }

  /** A trip clears exactly the flags of the floors it reaches in their
      direction, and stops exactly where a flag was up on arrival. */
  lemma {:induction false} TravelTraced(r: Ride, threshold: int, n: int, up0: seq<bool>, down0: seq<bool>)
    requires Sane(r, n)
    requires |up0| == n && |down0| == n
    requires Traced(r, up0, down0)
    ensures Traced(Travel(r, threshold, n), up0, down0)
    decreases |r.pending|, Phase(r), LegLeft(r)
  {
    if Running(r) {
      StepSane(r, threshold, n);
      StepProgress(r, threshold, n);
      StepTraced(r, threshold, n, up0, down0);
      TravelTraced(Step(r, threshold), threshold, n, up0, down0);
    }
  }

  /** A trip only removes pending calls, never reorders them. */
  lemma {:induction false} TravelKeepsOrder(r: Ride, threshold: int, n: int)
    requires Sane(r, n)
    ensures Subseq(Travel(r, threshold, n).pending, r.pending)
    decreases |r.pending|, Phase(r), LegLeft(r)
  {
    if Running(r) {
      var s := Step(r, threshold);
      StepSane(r, threshold, n);
      StepProgress(r, threshold, n);
      TravelKeepsOrder(s, threshold, n);
      if r.i == (if r.goingUp then r.target - 1 else r.target + 1) && (r.queued != NoFloor || r.pending != []) {
        PlanLegProgress(r.i, r.queued, r.pending, threshold);
        assert s.pending == PlanLeg(r.i, r.queued, r.pending, threshold).kept;
      } else {
        assert s.pending == r.pending;
        SubseqRefl(r.pending);
      }
      SubseqTrans(Travel(s, threshold, n).pending, s.pending, r.pending);
    } else {
      SubseqRefl(r.pending);
    }
  }

  /** The car moves one floor per step: the visits start where the car
      started, end where it stands, and neighbouring visits are one floor
      apart in the direction of the later one. */
  ghost predicate Walked(r: Ride, start: int)
  {
    && (r.visits == [] ==> r.i == r.current == start)
    && (r.visits != [] ==>
          && r.i == r.current + Inc(r.goingUp)
          && r.visits[0].floor == start && r.visits[|r.visits| - 1].floor == r.current)
    && (forall k :: 0 < k < |r.visits| ==>
          r.visits[k].floor == r.visits[k - 1].floor + (if r.visits[k].heading == Up then 1 else -1))
  }

  lemma StepWalks(r: Ride, threshold: int, n: int, start: int)
    requires Sane(r, n) && Running(r) && Walked(r, start)
    ensures Walked(Step(r, threshold), start)
  {
    var s := Step(r, threshold);
    assert s.visits[..|r.visits|] == r.visits;
    assert forall k :: 0 <= k < |r.visits| ==> s.visits[k] == r.visits[k];
  }

  lemma {:induction false} TravelWalks(r: Ride, threshold: int, n: int, start: int)
    requires Sane(r, n) && Walked(r, start)
    ensures Walked(Travel(r, threshold, n), start)
    decreases |r.pending|, Phase(r), LegLeft(r)
  {
    if Running(r) {
      StepSane(r, threshold, n);
      StepProgress(r, threshold, n);
      StepWalks(r, threshold, n, start);
      TravelWalks(Step(r, threshold), threshold, n, start);
    }
  }

  /** A launched ride satisfies the loop's invariants. */
  lemma LaunchSane(current: int, floor: int, dir: Direction, queued: int,
                   pending: seq<FloorRequest>, up: seq<bool>, down: seq<bool>, n: int)
    requires 0 <= current < n && 0 <= floor < n
    requires queued == NoFloor || 0 <= queued < n
    requires forall x :: x in pending ==> 0 <= x.floor < n
    requires |up| == n && |down| == n
    ensures var r := Launch(current, floor, dir, queued, pending, up, down);
      Sane(r, n) && Traced(r, up, down) && Walked(r, current)
  {
  }

  /** The trip `t` a car made from floor `current` over a building of `n`
      floors whose flags were `up` and `down`, with `pending` queued: it
      kept the order of the calls it left pending, cleared exactly the flags
      of the floors it reached in their direction, stopped for a pickup
      exactly at the first arrival where a flag was up, and walked one floor
      at a time from `current` to where it ended. */
  ghost predicate Journey(t: Ride, current: int, pending: seq<FloorRequest>, up: seq<bool>,
                          down: seq<bool>, n: int)
  {
    && |up| == n && |down| == n && |t.up| == n && |t.down| == n
    && Subseq(t.pending, pending)
    && (forall f :: 0 <= f < n ==> t.up[f] == (up[f] && !Visited(t.visits, f, Up)))
    && (forall f :: 0 <= f < n ==> t.down[f] == (down[f] && !Visited(t.visits, f, Down)))
    && (forall k :: 0 <= k < |t.visits| ==> 0 <= t.visits[k].floor < n)
    && (forall k :: 0 <= k < |t.visits| ==>
          t.visits[k].pickup == (FlagsOf(t.visits[k].heading, up, down)[t.visits[k].floor] && FirstVisit(t.visits, k)))
    && (t.visits == [] ==> t.current == current)
    && (t.visits != [] ==> t.visits[0].floor == current && t.visits[|t.visits| - 1].floor == t.current)
    && (forall k :: 0 < k < |t.visits| ==>
          t.visits[k].floor == t.visits[k - 1].floor + (if t.visits[k].heading == Up then 1 else -1))
  }

  /** A whole trip started from an idle car is a journey from the car's
      floor, as defined above. */
  lemma LaunchTravel(current: int, floor: int, dir: Direction, queued: int,
                     pending: seq<FloorRequest>, up: seq<bool>, down: seq<bool>,
                     threshold: int, n: int)
    requires 0 <= current < n && 0 <= floor < n
    requires queued == NoFloor || 0 <= queued < n
    requires forall x :: x in pending ==> 0 <= x.floor < n
    requires |up| == n && |down| == n
    ensures Sane(Launch(current, floor, dir, queued, pending, up, down), n)
    ensures Journey(Travel(Launch(current, floor, dir, queued, pending, up, down), threshold, n),
                    current, pending, up, down, n)
  {
    var start := Launch(current, floor, dir, queued, pending, up, down);
    LaunchSane(current, floor, dir, queued, pending, up, down, n);
    var t := Travel(start, threshold, n);
    TravelTraced(start, threshold, n, up, down);
    TravelKeepsOrder(start, threshold, n);
    TravelWalks(start, threshold, n, current);
    ClearedIsUnvisited(up, t.visits, Up);
    ClearedIsUnvisited(down, t.visits, Down);
    PickupsAreFirstVisits(t.visits, up, down);
  }

  /** A trip against the car's previous direction never enters the loop:
      the car stays where it is, MOVING, with its new target and direction. */
  lemma LaunchAgainstOldDirection(current: int, floor: int, dir: Direction, queued: int,
                                  pending: seq<FloorRequest>, up: seq<bool>, down: seq<bool>,
                                  threshold: int, n: int)
    requires Sane(Launch(current, floor, dir, queued, pending, up, down), n)
    requires (dir == Up && floor < current) || (dir == Down && floor > current)
    ensures var t := Travel(Launch(current, floor, dir, queued, pending, up, down), threshold, n);
      && t.visits == [] && t.state == Moving && t.current == current && t.target == floor
      && t.dir == (if floor >= current then Up else Down) && t.pending == pending
  {
  }

  /** A trip to the car's own floor reaches that floor once and ends the
      loop still MOVING, without looking at the queue. */
  lemma LaunchToOwnFloor(current: int, dir: Direction, queued: int,
                         pending: seq<FloorRequest>, up: seq<bool>, down: seq<bool>,
                         threshold: int, n: int)
    requires Sane(Launch(current, current, dir, queued, pending, up, down), n)
    ensures var t := Travel(Launch(current, current, dir, queued, pending, up, down), threshold, n);
      && |t.visits| == 1 && t.visits[0].floor == current
      && t.state == Moving && t.current == current && t.target == current && t.pending == pending
  {
    var r := Launch(current, current, dir, queued, pending, up, down);
    StepSane(r, threshold, n);
    var s := Step(r, threshold);
    assert !Running(s);
  }

  /** The rides of a trip with nothing queued or pending, heading on from
      the previous direction towards `floor`: no leg is ever re-planned. */
  ghost predicate Straight(r: Ride, floor: int, goingUp: bool)
  {
    && r.target == floor && r.goingUp == goingUp && r.queued == NoFloor && r.pending == []
    && (r.state == Moving ==> if goingUp then r.i <= floor - 1 else r.i >= floor + 1)
    && (forall k :: 0 <= k < |r.visits| ==> r.visits[k].heading == StepOf(goingUp))
  }

  lemma {:induction false} TravelStraight(r: Ride, threshold: int, n: int, floor: int, goingUp: bool)
    requires Sane(r, n) && Straight(r, floor, goingUp)
    ensures Straight(Travel(r, threshold, n), floor, goingUp)
    decreases |r.pending|, Phase(r), LegLeft(r)
  {
    if Running(r) {
      StepSane(r, threshold, n);
      StepProgress(r, threshold, n);
      TravelStraight(Step(r, threshold), threshold, n, floor, goingUp);
    }
  }

  /** With nothing queued or pending, a trip onwards in the previous
      direction takes the car straight to the floor, where it goes idle. */
  lemma LaunchStraight(current: int, floor: int, dir: Direction,
                       up: seq<bool>, down: seq<bool>, threshold: int, n: int)
    requires Sane(Launch(current, floor, dir, NoFloor, [], up, down), n)
    requires (dir == Up && floor > current) || (dir == Down && floor < current)
    ensures var t := Travel(Launch(current, floor, dir, NoFloor, [], up, down), threshold, n);
      && t.state == Idle && t.current == floor
      && forall k :: 0 <= k < |t.visits| ==> t.visits[k].heading == dir
  {
    TravelStraight(Launch(current, floor, dir, NoFloor, [], up, down), threshold, n, floor, dir == Up);
  }
  /** A car that starts a new leg at the floor before its target never
      reaches that target: heading up from floor 5 to floor 8 with floor 3
      queued, it turns at floor 7, and the queued slot, which is read but
      never emptied, keeps it turning until it stops the loop at floor 3,
      still MOVING. */
  lemma TurnSkipsTarget(up: seq<bool>, down: seq<bool>, threshold: int)
    requires |up| == 10 && |down| == 10
    ensures var t := Travel(Launch(5, 8, Up, 3, [], up, down), threshold, 10);
      && t.state == Moving && t.current == 3 && t.target == 3 && t.queued == 3
      && (forall k :: 0 <= k < |t.visits| ==> t.visits[k].floor != 8)
  {
    TurnAtSeven(up, down, threshold);
    DownFromSeven(up[5 := false][6 := false][7 := false], down,
                  [Visit(5, Up, up[5]), Visit(6, Up, up[6]), Visit(7, Up, up[7])], threshold);
  }

  /** The first leg of that trip: floors 5, 6 and 7 upwards, then the turn
      towards the queued floor 3. */
  lemma TurnAtSeven(up: seq<bool>, down: seq<bool>, threshold: int)
    requires |up| == 10 && |down| == 10
    ensures Sane(Launch(5, 8, Up, 3, [], up, down), 10)
    ensures var r := Ride(7, 3, Down, Moving, 3, [], up[5 := false][6 := false][7 := false], down, 6, false,
                          [Visit(5, Up, up[5]), Visit(6, Up, up[6]), Visit(7, Up, up[7])]);
      Sane(r, 10) && Travel(Launch(5, 8, Up, 3, [], up, down), threshold, 10) == Travel(r, threshold, 10)
  {
    var r0 := Launch(5, 8, Up, 3, [], up, down);
    LaunchSane(5, 8, Up, 3, [], up, down, 10);
    TravelStep(r0, threshold, 10);
    var r1 := Step(r0, threshold);
    TravelStep(r1, threshold, 10);
    var r2 := Step(r1, threshold);
    TravelStep(r2, threshold, 10);
    assert PlanLeg(7, 3, [], threshold) == Leg(3, Down, []);
    assert Step(r2, threshold).visits == [Visit(5, Up, up[5]), Visit(6, Up, up[6]), Visit(7, Up, up[7])];
  }

  /** The rest of it: floors 6, 5, 4 and 3 downwards, re-planning the same
      leg to floor 3 at floor 4, and out of the loop at floor 3. */
  lemma DownFromSeven(up: seq<bool>, down: seq<bool>, visits: seq<Visit>, threshold: int)
    requires |up| == 10 && |down| == 10
    requires forall k :: 0 <= k < |visits| ==> visits[k].floor != 8
    requires Sane(Ride(7, 3, Down, Moving, 3, [], up, down, 6, false, visits), 10)
    ensures var t := Travel(Ride(7, 3, Down, Moving, 3, [], up, down, 6, false, visits), threshold, 10);
      && t.state == Moving && t.current == 3 && t.target == 3 && t.queued == 3
      && (forall k :: 0 <= k < |t.visits| ==> t.visits[k].floor != 8)
  {
    var r3 := Ride(7, 3, Down, Moving, 3, [], up, down, 6, false, visits);
    TravelStep(r3, threshold, 10);
    var r4 := Step(r3, threshold);
    TravelStep(r4, threshold, 10);
    var r5 := Step(r4, threshold);
    TravelStep(r5, threshold, 10);
    var r6 := Step(r5, threshold);
    assert r6.target == 3 && r6.i == 3;
    TravelStep(r6, threshold, 10);
    var r7 := Step(r6, threshold);
    assert !Running(r7);
    assert r7.visits == visits + [Visit(6, Down, down[6]), Visit(5, Down, down[5]), Visit(4, Down, down[4]),
                                  Visit(3, Down, down[3])];
  }
}
