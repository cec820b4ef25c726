/** The pure parts of the dispatch and route logic: the compatibility and
    distance tests of the controller, the in-range test and the claiming of
    pending requests by a car starting a new leg, the in-car button merge
    policy, and the clamping of the detour threshold. */
module Routing {
  import opened Requests

  // ----------------------------------------------------------------------
  // Controller helpers (isCompatibleDirection, calculateDistance,
  // setmaxDistanceThreshold's arithmetic)
  // ----------------------------------------------------------------------

  /** A call is compatible with a car heading `carDir` at `carFloor` when the
      caller wants the same direction and the car will pass the floor
      without reversing. */
  predicate IsCompatibleDirection(carDir: Direction, carFloor: int, request: FloorRequest)
  {
    if carDir == Up then carFloor <= request.floor && request.dir == Up
    else carFloor >= request.floor && request.dir == Down
  }

  /** Number of floors between a car and a requested floor. */
  function Distance(floor: int, carFloor: int): (d: nat)
    ensures d == floor - carFloor || d == carFloor - floor
  {
    if floor >= carFloor then floor - carFloor else carFloor - floor
  }

  /** Both floors lie in a building of `n` floors, so the distance is below
      `n`, and hence below Java's Integer.MAX_VALUE. */
  lemma DistanceBelowFloorCount(floor: int, carFloor: int, n: int)
    requires 0 <= floor < n && 0 <= carFloor < n
    ensures Distance(floor, carFloor) < n
  {
  }

  /** The threshold actually stored for a requested value `m` in a building
      of `n` floors. */
  function Clamp(m: int, n: int): (r: int)
    ensures 0 <= r
    ensures 0 <= n ==> r <= n
    ensures 0 <= m <= n ==> r == m
    ensures m < 0 ==> r == 0
    ensures m > n ==> r == Max(n, 0)
  {
    Max(Min(n, m), 0)
  }

  /** The default threshold, floors divided evenly among the cars, lies in
      [0, numFloors]. */
  lemma EvenShareInRange(numFloors: int, numElevators: int)
    requires 0 <= numFloors && 0 < numElevators
    ensures 0 <= numFloors / numElevators <= numFloors
  {
    var q := numFloors / numElevators;
    assert numElevators * q + numFloors % numElevators == numFloors;
    MulAtLeast(numElevators, q);
  }

  lemma {:induction false} MulAtLeast(k: int, q: int)
    requires 1 <= k && 0 <= q
    ensures q <= k * q
    decreases k
  {
    if k > 1 {
      MulAtLeast(k - 1, q);
      assert k * q == (k - 1) * q + q;
    }
  }

  /** The target a chosen car takes for a call from `floor`: the farther of
      its target and the floor in its direction, whether or not the floor
      lies behind the car. */
  function Stretch(dir: Direction, target: int, floor: int): (t: int)
    ensures t == target || t == floor
    ensures dir == Up ==> t >= target && t >= floor
    ensures dir == Down ==> t <= target && t <= floor
  {
    if dir == Up then Max(target, floor) else Min(target, floor)
  }

  // ----------------------------------------------------------------------
  // In-range test and claiming (isRequestInRange, claimPendingRequests)
  // ----------------------------------------------------------------------

  /** The farthest floor a car at `current` heading `dir` towards `target`
      is willing to serve on this leg: its target, or `threshold` floors
      past its position, whichever is farther in the travel direction. */
  function LegReach(target: int, current: int, dir: Direction, threshold: int): int
  {
    if dir == Up then Max(target, current + threshold) else Min(target, current - threshold)
  }

  /** A pending request lies on the car's way: same direction, at or ahead
      of the car, and not beyond the reach of the leg. */
  predicate InRange(request: FloorRequest, current: int, target: int, dir: Direction, threshold: int)
  {
    if dir == Down then
      request.dir == Down && request.floor <= current
      && request.floor >= LegReach(target, current, dir, threshold)
    else
      request.dir == Up && request.floor >= current
      && request.floor <= LegReach(target, current, dir, threshold)
  }

  /** A request compatible with a car and within the threshold of it is
      always on that car's way, whatever its target. */
  lemma CompatibleIsInRange(request: FloorRequest, current: int, target: int, dir: Direction, threshold: int)
    requires IsCompatibleDirection(dir, current, request)
    requires Distance(request.floor, current) <= threshold
    ensures InRange(request, current, target, dir, threshold)
  {
  }

  /** Conversely, every request on a car's way is compatible with it. */
  lemma InRangeIsCompatible(request: FloorRequest, current: int, target: int, dir: Direction, threshold: int)
    requires InRange(request, current, target, dir, threshold)
    ensures IsCompatibleDirection(dir, current, request)
  {
  }

  /** What claiming leaves behind: the entries that stay pending and the
      possibly extended target. */
  datatype Claimed = Claimed(kept: seq<FloorRequest>, target: int)

  /** Claiming as the source performs it: entries are examined left to
      right, each against the target as extended by the entries claimed
      before it (isRequestInRange reads the live target field); a claimed
      entry is dropped and pulls the target to its floor if that is
      farther. `up` is the direction fixed once at the start of the pass.

      The Java loop removes from the list it iterates over, which raises a
      ConcurrentModificationException unless the removed entry is the
      second-to-last one; the intended stable filter is modelled here. */
  function Claim(pending: seq<FloorRequest>, current: int, target: int, dir: Direction,
                 up: bool, threshold: int): (r: Claimed)
    ensures |r.kept| <= |pending|
    ensures up ==> r.target >= target
    ensures !up ==> r.target <= target
    ensures |r.kept| == |pending| ==> r.kept == pending && r.target == target
    decreases |pending|
  {
    if pending == [] then Claimed([], target)
    else
      var x := pending[0];
      if InRange(x, current, target, dir, threshold) then
        Claim(pending[1..], current, if up then Max(target, x.floor) else Min(target, x.floor),
              dir, up, threshold)
      else
        var rest := Claim(pending[1..], current, target, dir, up, threshold);
        assert |rest.kept| == |pending[1..]| ==> [x] + rest.kept == pending;
        Claimed([x] + rest.kept, rest.target)
  }

  /** One step of claiming, taken at position `m` of a queue. */
  lemma ClaimUnfold(pending: seq<FloorRequest>, m: int, current: int, target: int, dir: Direction,
                    up: bool, threshold: int)
    requires 0 <= m < |pending|
    ensures Claim(pending[m..], current, target, dir, up, threshold)
         == if InRange(pending[m], current, target, dir, threshold) then
              Claim(pending[m + 1..], current,
                    if up then Max(target, pending[m].floor) else Min(target, pending[m].floor),
                    dir, up, threshold)
            else
              var rest := Claim(pending[m + 1..], current, target, dir, up, threshold);
              Claimed([pending[m]] + rest.kept, rest.target)
  {
    assert pending[m..][0] == pending[m];
    assert pending[m..][1..] == pending[m + 1..];
  }

  /** The state of an in-place claiming pass after `m` entries: the queue
      holds the `kept` entries followed by the unexamined ones, and finishing
      the pass from here yields the overall result `whole`. */
  ghost predicate ClaimingAt(whole: Claimed, queue: seq<FloorRequest>, kept: seq<FloorRequest>,
                             pending: seq<FloorRequest>, m: int, current: int, target: int,
                             dir: Direction, up: bool, threshold: int)
  {
    && 0 <= m <= |pending|
    && queue == kept + pending[m..]
    && var rest := Claim(pending[m..], current, target, dir, up, threshold);
       whole == Claimed(kept + rest.kept, rest.target)
  }

  /** A pass that has examined nothing is on course for the whole claim. */
  lemma ClaimingStart(pending: seq<FloorRequest>, current: int, target: int, dir: Direction,
                      up: bool, threshold: int)
    ensures ClaimingAt(Claim(pending, current, target, dir, up, threshold), pending, [], pending, 0,
                       current, target, dir, up, threshold)
  {
    assert pending[0..] == pending;
  }

  /** The entry under the pass is the next unexamined one, and taking or
      keeping it, as the reach of the live target decides, keeps the pass on
      course. */
  lemma ClaimingNext(whole: Claimed, queue: seq<FloorRequest>, kept: seq<FloorRequest>,
                     pending: seq<FloorRequest>, m: int, current: int, target: int,
                     dir: Direction, up: bool, threshold: int)
    requires ClaimingAt(whole, queue, kept, pending, m, current, target, dir, up, threshold)
    requires |kept| < |queue|
    ensures m < |pending| && queue[|kept|] == pending[m]
    ensures InRange(pending[m], current, target, dir, threshold) ==>
      ClaimingAt(whole, queue[..|kept|] + queue[|kept| + 1..], kept, pending, m + 1, current,
                 if up then Max(target, pending[m].floor) else Min(target, pending[m].floor),
                 dir, up, threshold)
    ensures !InRange(pending[m], current, target, dir, threshold) ==>
      ClaimingAt(whole, queue, kept + [pending[m]], pending, m + 1, current, target, dir, up, threshold)
  {
    if InRange(pending[m], current, target, dir, threshold) {
      ClaimingTakes(whole, queue, kept, pending, m, current, target, dir, up, threshold);
    } else {
      ClaimingKeeps(whole, queue, kept, pending, m, current, target, dir, up, threshold);
    }
  }

  /** A pass that has examined every entry has produced the overall result. */
  lemma ClaimingDone(whole: Claimed, queue: seq<FloorRequest>, kept: seq<FloorRequest>,
                     pending: seq<FloorRequest>, m: int, current: int, target: int,
                     dir: Direction, up: bool, threshold: int)
    requires ClaimingAt(whole, queue, kept, pending, m, current, target, dir, up, threshold)
    requires |kept| >= |queue|
    ensures whole == Claimed(queue, target)
  {
    assert pending[m..] == [];
    assert kept + [] == kept;
  }

  /** Removing an entry on the way (at index |kept|) and extending the target. */
  lemma ClaimingTakes(whole: Claimed, queue: seq<FloorRequest>, kept: seq<FloorRequest>,
                      pending: seq<FloorRequest>, m: int, current: int, target: int,
                      dir: Direction, up: bool, threshold: int)
    requires ClaimingAt(whole, queue, kept, pending, m, current, target, dir, up, threshold)
    requires m < |pending| && InRange(pending[m], current, target, dir, threshold)
    ensures |kept| < |queue| && queue[|kept|] == pending[m]
    ensures ClaimingAt(whole, queue[..|kept|] + queue[|kept| + 1..], kept, pending, m + 1, current,
                       if up then Max(target, pending[m].floor) else Min(target, pending[m].floor),
                       dir, up, threshold)
  {
    ClaimUnfold(pending, m, current, target, dir, up, threshold);
    var i := |kept|;
    assert queue[..i] == kept;
    assert queue[i + 1..] == pending[m + 1..];
  }

  /** Passing over an entry that is not on the way. */
  lemma ClaimingKeeps(whole: Claimed, queue: seq<FloorRequest>, kept: seq<FloorRequest>,
                      pending: seq<FloorRequest>, m: int, current: int, target: int,
                      dir: Direction, up: bool, threshold: int)
    requires ClaimingAt(whole, queue, kept, pending, m, current, target, dir, up, threshold)
    requires m < |pending| && !InRange(pending[m], current, target, dir, threshold)
    ensures |kept| < |queue| && queue[|kept|] == pending[m]
    ensures ClaimingAt(whole, queue, kept + [pending[m]], pending, m + 1, current, target, dir, up, threshold)
  {
    ClaimUnfold(pending, m, current, target, dir, up, threshold);
    var after := Claim(pending[m + 1..], current, target, dir, up, threshold);
    assert (kept + [pending[m]]) + after.kept == kept + ([pending[m]] + after.kept);
    assert pending[m..] == [pending[m]] + pending[m + 1..];
    assert kept + pending[m..] == (kept + [pending[m]]) + pending[m + 1..];
  }

  /** The entries of `pending` that are not on the way for a fixed target,
      in their original order. */
  function Remaining(pending: seq<FloorRequest>, current: int, target: int, dir: Direction,
                     threshold: int): (r: seq<FloorRequest>)
    ensures |r| <= |pending|
    ensures forall x :: x in r <==> x in pending && !InRange(x, current, target, dir, threshold)
    decreases |pending|
  {
    if pending == [] then []
    else
      (if InRange(pending[0], current, target, dir, threshold) then [] else [pending[0]])
      + Remaining(pending[1..], current, target, dir, threshold)
  }

  /** Two targets with the same reach leave the same entries unclaimed. */
  lemma {:induction false} RemainingSameReach(pending: seq<FloorRequest>, current: int, t1: int, t2: int,
                                              dir: Direction, threshold: int)
    requires LegReach(t1, current, dir, threshold) == LegReach(t2, current, dir, threshold)
    ensures Remaining(pending, current, t1, dir, threshold) == Remaining(pending, current, t2, dir, threshold)
    decreases |pending|
  {
    if pending != [] {
      RemainingSameReach(pending[1..], current, t1, t2, dir, threshold);
    }
  }

  /** Claiming one entry never moves the reach of the leg: the claimed floor
      was within the reach already. */
  lemma ClaimStepKeepsReach(x: FloorRequest, current: int, target: int, dir: Direction, up: bool, threshold: int)
    requires up == (dir == Up)
    requires InRange(x, current, target, dir, threshold)
    ensures LegReach(if up then Max(target, x.floor) else Min(target, x.floor), current, dir, threshold)
         == LegReach(target, current, dir, threshold)
  {
  }

  /** Reading the live target makes no difference: claiming removes exactly
      the entries on the way for the target the pass started with (same
      direction, between the car and max(target, current + threshold) going
      up, or min(target, current - threshold) going down), and keeps the
      others in order. */
  lemma {:induction false} ClaimIsRemaining(pending: seq<FloorRequest>, current: int, target: int,
                                            dir: Direction, up: bool, threshold: int)
    requires up == (dir == Up)
    ensures Claim(pending, current, target, dir, up, threshold).kept
         == Remaining(pending, current, target, dir, threshold)
    decreases |pending|
  {
    if pending != [] {
      var x := pending[0];
      if InRange(x, current, target, dir, threshold) {
        var t' := if up then Max(target, x.floor) else Min(target, x.floor);
        ClaimStepKeepsReach(x, current, target, dir, up, threshold);
        ClaimIsRemaining(pending[1..], current, t', dir, up, threshold);
        RemainingSameReach(pending[1..], current, t', target, dir, threshold);
      } else {
        ClaimIsRemaining(pending[1..], current, target, dir, up, threshold);
      }
    }
  }

  /** The target after claiming is the old target or the floor of a claimed
      entry, and it never passes the reach of the leg. */
  lemma {:induction false} ClaimTarget(pending: seq<FloorRequest>, current: int, target: int,
                                       dir: Direction, up: bool, threshold: int)
    requires up == (dir == Up)
    ensures var r := Claim(pending, current, target, dir, up, threshold);
      && (up ==> r.target <= LegReach(target, current, dir, threshold))
      && (!up ==> r.target >= LegReach(target, current, dir, threshold))
      && (r.target == target
          || exists x :: x in pending && InRange(x, current, target, dir, threshold) && x.floor == r.target)
    decreases |pending|
  {
    if pending != [] {
      var x := pending[0];
      if InRange(x, current, target, dir, threshold) {
        var t' := if up then Max(target, x.floor) else Min(target, x.floor);
        ClaimStepKeepsReach(x, current, target, dir, up, threshold);
        ClaimTarget(pending[1..], current, t', dir, up, threshold);
      } else {
        ClaimTarget(pending[1..], current, target, dir, up, threshold);
      }
    }
  }

  /** A claimed target stays on a floor of the building when the old target
      and every pending floor do. */
  lemma ClaimTargetInBuilding(pending: seq<FloorRequest>, current: int, target: int,
                              dir: Direction, up: bool, threshold: int, n: int)
    requires up == (dir == Up)
    requires 0 <= target < n
    requires forall x :: x in pending ==> 0 <= x.floor < n
    ensures 0 <= Claim(pending, current, target, dir, up, threshold).target < n
  {
    ClaimTarget(pending, current, target, dir, up, threshold);
  }

  /** Claiming keeps a car placed: the new target is the old one or a
      pending floor ahead of the car, and what stays queued is on floors of
      the building. */
  lemma ClaimKeepsPlacement(pending: seq<FloorRequest>, current: int, target: int,
                            dir: Direction, threshold: int, n: int)
    requires Heading(dir, current, target)
    requires forall x :: x in pending ==> 0 <= x.floor < n
    ensures var r := Claim(pending, current, target, dir, dir == Up, threshold);
      && (r.target == target || 0 <= r.target < n)
      && Heading(dir, current, r.target)
      && r.kept == Remaining(pending, current, target, dir, threshold)
      && forall x :: x in r.kept ==> 0 <= x.floor < n
  {
    ClaimTarget(pending, current, target, dir, dir == Up, threshold);
    ClaimIsRemaining(pending, current, target, dir, dir == Up, threshold);
  }

  // ----------------------------------------------------------------------
  // Order-preserving removal
  // ----------------------------------------------------------------------

  /** `a` is obtained from `b` by deleting entries and keeping the others in
      their order. */
  ghost predicate Subseq(a: seq<FloorRequest>, b: seq<FloorRequest>)
    decreases |b|
  {
    a == [] || (b != [] && ((a[0] == b[0] && Subseq(a[1..], b[1..])) || Subseq(a, b[1..])))
  }

  lemma {:induction false} SubseqRefl(a: seq<FloorRequest>)
    ensures Subseq(a, a)
    decreases |a|
  {
    if a != [] {
      SubseqRefl(a[1..]);
    }
  }

  /** Dropping the oldest entry keeps the rest in order. */
  lemma SubseqTail(a: seq<FloorRequest>)
    requires a != []
    ensures Subseq(a[1..], a)
  {
    SubseqRefl(a[1..]);
  }

  lemma {:induction false} SubseqTrans(a: seq<FloorRequest>, b: seq<FloorRequest>, c: seq<FloorRequest>)
    requires Subseq(a, b) && Subseq(b, c)
    ensures Subseq(a, c)
    decreases |c|
  {
    if a != [] {
      assert b != [] && c != [];
      if b[0] == c[0] && Subseq(b[1..], c[1..]) {
        if a[0] == b[0] && Subseq(a[1..], b[1..]) {
          SubseqTrans(a[1..], b[1..], c[1..]);
        } else {
          SubseqTrans(a, b[1..], c[1..]);
        }
      } else {
        SubseqTrans(a, b, c[1..]);
      }
    }
  }

  lemma {:induction false} SubseqMembers(a: seq<FloorRequest>, b: seq<FloorRequest>)
    requires Subseq(a, b)
    ensures forall x :: x in a ==> x in b
    decreases |b|
  {
    if a != [] {
      if a[0] == b[0] && Subseq(a[1..], b[1..]) {
        SubseqMembers(a[1..], b[1..]);
        assert a == [a[0]] + a[1..];
      } else {
        SubseqMembers(a, b[1..]);
      }
      assert b == [b[0]] + b[1..];
    }
  }

  /** Deleting entries never lengthens a queue. */
  lemma {:induction false} SubseqLength(a: seq<FloorRequest>, b: seq<FloorRequest>)
    requires Subseq(a, b)
    ensures |a| <= |b|
    decreases |b|
  {
    if a != [] {
      if a[0] == b[0] && Subseq(a[1..], b[1..]) {
        SubseqLength(a[1..], b[1..]);
      } else {
        SubseqLength(a, b[1..]);
      }
    }
  }

  /** The unclaimed entries keep their relative order. */
  lemma {:induction false} RemainingIsSubseq(pending: seq<FloorRequest>, current: int, target: int,
                                             dir: Direction, threshold: int)
    ensures Subseq(Remaining(pending, current, target, dir, threshold), pending)
    decreases |pending|
  {
    if pending != [] {
      var rest := Remaining(pending[1..], current, target, dir, threshold);
      RemainingIsSubseq(pending[1..], current, target, dir, threshold);
      if InRange(pending[0], current, target, dir, threshold) {
        assert Remaining(pending, current, target, dir, threshold) == rest;
      } else {
        var r := Remaining(pending, current, target, dir, threshold);
        assert r == [pending[0]] + rest;
        assert r[0] == pending[0] && r[1..] == rest;
      }
    }
  }

  // ----------------------------------------------------------------------
  // Choosing the next leg (the last-iteration branch of GoToFloor)
  // ----------------------------------------------------------------------

  /** What a car does at the floor before its target: rest, or start a new
      leg with this target and direction, leaving `kept` pending. */
  datatype Leg = Rest | Leg(target: int, dir: Direction, kept: seq<FloorRequest>)

  /** The floor a new leg first heads for: the queued floor when there is
      one, otherwise the floor of the oldest pending call. */
  function FirstTarget(queued: int, pending: seq<FloorRequest>): int
    requires 0 <= queued || pending != []
  {
    if queued >= 0 then queued else pending[0].floor
  }

  /** The calls still pending once the first target is taken: all of them
      when the queued floor is used (the queued slot is read, not emptied),
      all but the oldest otherwise. */
  function Backlog(queued: int, pending: seq<FloorRequest>): seq<FloorRequest>
    requires 0 <= queued || pending != []
  {
    if queued >= 0 then pending else pending[1..]
  }

  /** The next leg of a car at `current` with queued slot `queued`: rest when
      there is nothing to do; otherwise head for the first target and claim
      what lies on the way there. */
  function PlanLeg(current: int, queued: int, pending: seq<FloorRequest>, threshold: int): (r: Leg)
    requires queued == NoFloor || 0 <= queued
    ensures r.Rest? <==> queued == NoFloor && pending == []
  {
    if queued == NoFloor && pending == [] then Rest
    else
      var first := FirstTarget(queued, pending);
      var d := if current > first then Down else Up;
      var c := Claim(Backlog(queued, pending), current, first, d, first >= current, threshold);
      Leg(c.target, d, c.kept)
  }

  /** A leg turns towards its first target, keeps the calls that are not on
      the way there in their order, and ends at the first target or at the
      floor of a claimed call, never beyond the reach of the leg. */
  lemma PlanLegShape(current: int, queued: int, pending: seq<FloorRequest>, threshold: int)
    requires queued == NoFloor || 0 <= queued
    requires queued != NoFloor || pending != []
    ensures var r := PlanLeg(current, queued, pending, threshold);
      var first := FirstTarget(queued, pending);
      var rest := Backlog(queued, pending);
      && r.Leg?
      && r.dir == (if current > first then Down else Up)
      && r.kept == Remaining(rest, current, first, r.dir, threshold)
      && (r.dir == Up ==> first <= r.target <= LegReach(first, current, Up, threshold))
      && (r.dir == Down ==> LegReach(first, current, Down, threshold) <= r.target <= first)
      && (r.target == first
          || exists x :: x in rest && InRange(x, current, first, r.dir, threshold) && x.floor == r.target)
  {
    var first := FirstTarget(queued, pending);
    var d := if current > first then Down else Up;
    ClaimIsRemaining(Backlog(queued, pending), current, first, d, first >= current, threshold);
    ClaimTarget(Backlog(queued, pending), current, first, d, first >= current, threshold);
  }

  /** A leg heads the way its target lies. */
  lemma PlanLegHeading(current: int, queued: int, pending: seq<FloorRequest>, threshold: int)
    requires queued == NoFloor || 0 <= queued
    requires queued != NoFloor || pending != []
    ensures var r := PlanLeg(current, queued, pending, threshold);
      r.Leg? && Heading(r.dir, current, r.target) && (r.dir == Up <==> r.target >= current)
  {
  }

  /** Starting a leg keeps the pending calls in their order, and either
      shortens the queue or heads for the queued floor with nothing claimed. */
  lemma PlanLegProgress(current: int, queued: int, pending: seq<FloorRequest>, threshold: int)
    requires queued == NoFloor || 0 <= queued
    requires queued != NoFloor || pending != []
    ensures var r := PlanLeg(current, queued, pending, threshold);
      && r.Leg?
      && Subseq(r.kept, pending)
      && (|r.kept| < |pending| || (r.kept == pending && r.target == queued))
  {
    var first := FirstTarget(queued, pending);
    var rest := Backlog(queued, pending);
    var d := if current > first then Down else Up;
    ClaimIsRemaining(rest, current, first, d, first >= current, threshold);
    RemainingIsSubseq(rest, current, first, d, threshold);
    if queued < 0 {
      SubseqTail(pending);
      SubseqTrans(Remaining(rest, current, first, d, threshold), rest, pending);
    }
  }

  /** A leg planned inside the building stays inside it. */
  lemma PlanLegInBuilding(current: int, queued: int, pending: seq<FloorRequest>, threshold: int, n: int)
    requires queued == NoFloor || 0 <= queued < n
    requires queued != NoFloor || pending != []
    requires forall x :: x in pending ==> 0 <= x.floor < n
    ensures var r := PlanLeg(current, queued, pending, threshold);
      r.Leg? && 0 <= r.target < n && forall x :: x in r.kept ==> 0 <= x.floor < n
  {
    var first := FirstTarget(queued, pending);
    var rest := Backlog(queued, pending);
    var d := if current > first then Down else Up;
    assert pending != [] ==> pending[0] in pending;
    assert forall x :: x in rest ==> x in pending;
    ClaimTargetInBuilding(rest, current, first, d, first >= current, threshold, n);
    PlanLegProgress(current, queued, pending, threshold);
    SubseqMembers(PlanLeg(current, queued, pending, threshold).kept, pending);
  }

  // ----------------------------------------------------------------------
  // In-car button merge policy (FloorButtonPressed)
  // ----------------------------------------------------------------------

  /** The part of a car's state the button policy reads and writes. */
  datatype Car = Car(current: int, target: int, dir: Direction, queued: int)

  /** A car heading up has its target at or above it, a car heading down at
      or below it. */
  predicate Heading(dir: Direction, current: int, target: int)
  {
    (dir == Up ==> target >= current) && (dir == Down ==> target <= current)
  }

  /** The requested floor lies on the current leg's side of the car. */
  predicate SameSide(c: Car, floor: int)
  {
    if c.dir == Up then floor >= c.current else floor <= c.current
  }

  /** A press extends the current leg when the floor is on its side, and is
      deferred into the single queued slot otherwise. */
  function Press(c: Car, floor: int): (r: Car)
    ensures r.current == c.current && r.dir == c.dir
    ensures SameSide(c, floor) ==>
      && r.queued == c.queued
      && (r.target == c.target || r.target == floor)
      && (c.dir == Up ==> r.target >= c.target && r.target >= floor)
      && (c.dir == Down ==> r.target <= c.target && r.target <= floor)
    ensures !SameSide(c, floor) ==>
      && r.target == c.target
      && (r.queued == c.queued || r.queued == floor)
      && (c.queued == NoFloor ==> r.queued == floor)
      && (c.queued != NoFloor && c.dir == Up ==> r.queued <= c.queued && r.queued <= floor)
      && (c.queued != NoFloor && c.dir == Down ==> r.queued >= c.queued && r.queued >= floor)
  {
    if c.dir == Up then
      if floor >= c.current then c.(target := Max(c.target, floor))
      else if c.queued == NoFloor then c.(queued := floor)
      else c.(queued := Min(c.queued, floor))
    else
      if floor <= c.current then c.(target := Min(c.target, floor))
      else if c.queued == NoFloor then c.(queued := floor)
      else c.(queued := Max(c.queued, floor))
  }

  /** Pressing the same button twice has the effect of pressing it once. */
  lemma PressIdempotent(c: Car, floor: int)
    ensures Press(Press(c, floor), floor) == Press(c, floor)
  {
  }

  /** The order of two presses does not matter. */
  lemma PressCommutes(c: Car, f: int, g: int)
    requires 0 <= f && 0 <= g
    ensures Press(Press(c, f), g) == Press(Press(c, g), f)
  {
  }

  /** A press keeps a car's target on the right side of it, and keeps the
      target and the queued slot on floors of the building. */
  lemma PressKeepsPlacement(c: Car, floor: int, n: int)
    requires 0 <= floor < n
    requires Heading(c.dir, c.current, c.target)
    requires 0 <= c.target < n
    requires c.queued == NoFloor || 0 <= c.queued < n
    ensures var r := Press(c, floor);
      Heading(r.dir, r.current, r.target) && 0 <= r.target < n
      && (r.queued == NoFloor || 0 <= r.queued < n)
  {
  }
}
