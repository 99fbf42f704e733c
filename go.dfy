/** The stop rule of the polling bot: given one elevator's reported state and
    the building's outstanding floor calls, decide whether it must stop. */
module Go {
  import opened Wrappers
  import opened Elevators

  /** One elevator as the game server reports it. */
  datatype ElevatorState = ElevatorState(id: int, floor: int, speed: int, direction: int, buttonsPressed: seq<int>)

  /** `max()`/`min()` of the floor list raise `ValueError` when there are no calls. */
  datatype Error = NoFloorCalls

  /** `iter_els`: the elevator ids 0, 1, ..., nEl - 1 in order (`range(nEl)`,
      empty when `nEl` is not positive). */
  function IterEls(nEl: int): (ids: seq<int>)
    ensures |ids| == if nEl < 0 then 0 else nEl
    ensures forall i :: 0 <= i < |ids| ==> ids[i] == i
  {
    if nEl <= 0 then [] else IterEls(nEl - 1) + [nEl - 1]
  }

  /** `_floor_requests`: the floor of every call, in call order. */
  function FloorRequests(calls: seq<Request>): (floors: seq<int>)
    ensures |floors| == |calls|
    ensures forall i :: 0 <= i < |calls| ==> floors[i] == calls[i].floor
  {
    if calls == [] then [] else [calls[0].floor] + FloorRequests(calls[1..])
  }

  /** `_is_floor_requested`: scans the calls in order and answers as soon as one
      is at `floor` (and, when a direction is given, has that direction). */
  function IsFloorRequested(calls: seq<Request>, floor: int, direction: Option<int>): (b: bool)
    ensures b <==> exists i :: 0 <= i < |calls| && calls[i].floor == floor &&
                                (direction.None? || calls[i].direction == direction.value)
  {
    if calls == [] then false
    else if floor == calls[0].floor && (direction.None? || direction.value == calls[0].direction) then true
    else
      assert forall i :: 1 <= i < |calls| ==> calls[i] == calls[1..][i - 1];
      IsFloorRequested(calls[1..], floor, direction)
  }

  /** A call at `floor` in a given direction is a call at `floor`. */
  lemma DirectedImpliesUndirected(calls: seq<Request>, floor: int, d: int)
    requires IsFloorRequested(calls, floor, Some(d))
    ensures IsFloorRequested(calls, floor, None)
  {
  }

  /** `max()` of a non-empty list of floors. */
  function Max(s: seq<int>): (m: int)
    requires s != []
    ensures m in s
    ensures forall i :: 0 <= i < |s| ==> s[i] <= m
  {
    if |s| == 1 then s[0]
    else
      var rest := Max(s[1..]);
      assert forall i :: 1 <= i < |s| ==> s[i] == s[1..][i - 1];
      if s[0] >= rest then s[0] else rest
  }

  /** `min()` of a non-empty list of floors. */
  function Min(s: seq<int>): (m: int)
    requires s != []
    ensures m in s
    ensures forall i :: 0 <= i < |s| ==> m <= s[i]
  {
    if |s| == 1 then s[0]
    else
      var rest := Min(s[1..]);
      assert forall i :: 1 <= i < |s| ==> s[i] == s[1..][i - 1];
      if s[0] <= rest then s[0] else rest
  }

  /** `floor` is the highest or the lowest floor with a call. */
  ghost predicate AtOutermostCall(floor: int, calls: seq<Request>)
  {
    (exists i :: 0 <= i < |calls| && calls[i].floor == floor) &&
    ((forall i :: 0 <= i < |calls| ==> calls[i].floor <= floor) ||
     (forall i :: 0 <= i < |calls| ==> calls[i].floor >= floor))
  }

  /** `should_el_stop`: a stopped elevator is never told to stop; a moving one
      stops at a floor whose cabin button is lit, at the highest or lowest
      called floor, or at a floor called in its own direction of travel. */
  function ShouldElStop(el: ElevatorState, calls: seq<Request>): (r: Result<bool, Error>)
    ensures el.speed == 0 ==> r == Success(false)
    ensures el.speed != 0 && el.floor in el.buttonsPressed ==> r == Success(true)
    ensures el.speed != 0 && el.floor !in el.buttonsPressed && calls == [] ==> r == Failure(NoFloorCalls)
    ensures el.speed != 0 && el.floor !in el.buttonsPressed && calls != [] ==>
              r == Success(AtOutermostCall(el.floor, calls) ||
                           exists i :: 0 <= i < |calls| && calls[i] == Request(el.floor, el.direction))
  {
    if el.speed == 0 then Success(false)
    else if el.floor in el.buttonsPressed then Success(true)
    else
      var floorReqs := FloorRequests(calls);
      if floorReqs == [] then Failure(NoFloorCalls)
      else
        var top, bottom := Max(floorReqs), Min(floorReqs);
        if el.floor == top || el.floor == bottom then
          Success(true)
        else if IsFloorRequested(calls, el.floor, Some(el.direction)) then
          assert exists i :: 0 <= i < |calls| && calls[i] == Request(el.floor, el.direction) by {
            var i :| 0 <= i < |calls| && calls[i].floor == el.floor && calls[i].direction == el.direction;
            assert calls[i] == Request(el.floor, el.direction);
          }
          Success(true)
        else
          assert !AtOutermostCall(el.floor, calls) by {
            if exists i :: 0 <= i < |calls| && calls[i].floor == el.floor {
              var i :| 0 <= i < |calls| && calls[i].floor == el.floor;
              var ti :| 0 <= ti < |calls| && calls[ti].floor == top;
              var bi :| 0 <= bi < |calls| && calls[bi].floor == bottom;
              assert floorReqs[ti] == top && floorReqs[bi] == bottom;
              assert floorReqs[i] == el.floor;
            }
          }
          Success(false)
  }

  /** A moving elevator stops at a floor called in its own direction, and never
      at a floor with no call and no lit button. */
  lemma StopFollowsCalls(el: ElevatorState, calls: seq<Request>)
    requires el.speed != 0 && calls != []
    ensures IsFloorRequested(calls, el.floor, Some(el.direction)) ==> ShouldElStop(el, calls) == Success(true)
    ensures el.floor !in el.buttonsPressed && !IsFloorRequested(calls, el.floor, None) ==>
              ShouldElStop(el, calls) == Success(false)
  {
  }
}
