/** One elevator's bookkeeping: the floor calls it has accepted and the cabin
    buttons lit inside it. */
module Elevators {
  import opened Wrappers
  import Sorting

  /** A floor call: the floor and the travel direction (1 up, -1 down) of the
      call button pressed there. Two calls are the same call when both agree. */
  datatype Request = Request(floor: int, direction: int)

  /** The exceptions `requests_along_direction` raises. */
  datatype Error =
    | ImproperDirection        // ValueError: a direction other than 1 or -1
    | NoRequestAlongDirection  // IndexError: no request has that direction, so the unzipped list is empty

  predicate NoDuplicates(s: seq<Request>)
  {
    forall i, j :: 0 <= i < j < |s| ==> s[i] != s[j]
  }

  /** The request list after assigning `r`: unchanged when `r` is already
      there, otherwise `r` appended at the end. */
  function Assigned(s: seq<Request>, r: Request): (t: seq<Request>)
    ensures r in t
    ensures |s| <= |t| && t[..|s|] == s
    ensures forall x :: x in t <==> x in s || x == r
    ensures NoDuplicates(s) ==> NoDuplicates(t)
  {
    if r in s then s else s + [r]
  }

  /** The index of the first occurrence of `r` in `s`. */
  function FirstIndex(s: seq<Request>, r: Request): (i: nat)
    requires r in s
    ensures i < |s| && s[i] == r
    ensures forall k :: 0 <= k < i ==> s[k] != r
  {
    if s[0] == r then 0 else 1 + FirstIndex(s[1..], r)
  }

  /** The request list after `list.remove(r)` when `r` is present, and the list
      itself otherwise: the first occurrence of `r` is deleted. */
  function RemovedFirst(s: seq<Request>, r: Request): (t: seq<Request>)
    ensures r !in s ==> t == s
    ensures r in s ==> |t| == |s| - 1
  {
    if s == [] then []
    else
      assert s == [s[0]] + s[1..];
      if s[0] == r then s[1..]
      else [s[0]] + RemovedFirst(s[1..], r)
  }

  /** Removing deletes exactly the entry at the first occurrence: every other
      request stays, in its original order. */
  lemma {:induction false} RemovedFirstDeletesFirstOccurrence(s: seq<Request>, r: Request)
    requires r in s
    ensures RemovedFirst(s, r) == s[..FirstIndex(s, r)] + s[FirstIndex(s, r) + 1..]
  {
    if s[0] != r {
      var tail := s[1..];
      assert r in tail;
      var i' := FirstIndex(tail, r);
      RemovedFirstDeletesFirstOccurrence(tail, r);
      assert FirstIndex(s, r) == i' + 1;
    }
  }

  /** Removing takes away one copy of `r`, if there is one, and nothing else. */
  lemma {:induction false} RemovedFirstCounts(s: seq<Request>, r: Request)
    ensures multiset(RemovedFirst(s, r)) == multiset(s) - multiset{r}
  {
    if s != [] {
      assert s == [s[0]] + s[1..];
      RemovedFirstCounts(s[1..], r);
    }
  }

  /** Under the no-duplicates invariant, removing a request leaves it unassigned
      and keeps the invariant. */
  lemma {:induction false} RemovedFirstUnassigns(s: seq<Request>, r: Request)
    requires NoDuplicates(s)
    ensures r !in RemovedFirst(s, r)
    ensures NoDuplicates(RemovedFirst(s, r))
  {
    if r in s {
      var i := FirstIndex(s, r);
      RemovedFirstDeletesFirstOccurrence(s, r);
      var t := s[..i] + s[i + 1..];
      forall k | 0 <= k < |t| ensures t[k] != r {
        if k < i { assert t[k] == s[k]; } else { assert t[k] == s[k + 1]; }
      }
      forall a, b | 0 <= a < b < |t| ensures t[a] != t[b] {
        var a' := if a < i then a else a + 1;
        var b' := if b < i then b else b + 1;
        assert t[a] == s[a'] && t[b] == s[b'];
      }
    }
  }

  /** Assigning an already-assigned request changes nothing. */
  lemma AssignIdempotent(s: seq<Request>, r: Request)
    ensures Assigned(Assigned(s, r), r) == Assigned(s, r)
  {
  }

  /** The two operations through which the dispatcher changes a request list. */
  datatype Edit = Assign(r: Request) | Remove(r: Request)

  /** The request list after applying `edits` to `s` in order. */
  function Replay(s: seq<Request>, edits: seq<Edit>): (t: seq<Request>)
    decreases edits
  {
    if edits == [] then s
    else
      var next := match edits[0]
        case Assign(r) => Assigned(s, r)
        case Remove(r) => RemovedFirst(s, r);
      Replay(next, edits[1..])
  }

  /** A request list changed only by assigning and removing never holds the same
      request twice. */
  lemma {:induction false} EditsKeepNoDuplicates(s: seq<Request>, edits: seq<Edit>)
    requires NoDuplicates(s)
    ensures NoDuplicates(Replay(s, edits))
    decreases edits
  {
    if edits != [] {
      match edits[0]
      case Assign(r) =>
        EditsKeepNoDuplicates(Assigned(s, r), edits[1..]);
      case Remove(r) =>
        RemovedFirstUnassigns(s, r);
        EditsKeepNoDuplicates(RemovedFirst(s, r), edits[1..]);
    }
  }

  /** The floors of the requests with direction `d`, in request order (the
      filter and unzip of `requests_along_direction`). */
  function FloorsAlong(s: seq<Request>, d: int): (floors: seq<int>)
    ensures |floors| <= |s|
    ensures forall f {:trigger multiset(floors)[f]} :: multiset(floors)[f] == multiset(s)[Request(f, d)]
  {
    if s == [] then []
    else
      var rest := FloorsAlong(s[1..], d);
      assert s == [s[0]] + s[1..];
      (if s[0].direction == d then [s[0].floor] else []) + rest
  }

  /** A floor is listed exactly when a call at that floor in direction `d` is held. */
  lemma {:induction false} FloorsAlongMembers(s: seq<Request>, d: int)
    ensures forall f :: f in FloorsAlong(s, d) <==> Request(f, d) in s
  {
    if s != [] {
      assert s == [s[0]] + s[1..];
      FloorsAlongMembers(s[1..], d);
    }
  }

  /** `requests_along_direction(d)` over the request list `s`. */
  function AlongDirection(s: seq<Request>, d: int): (r: Result<seq<int>, Error>)
    ensures r == Failure(ImproperDirection) <==> d != 1 && d != -1
    ensures r == Failure(NoRequestAlongDirection) <==>
              (d == 1 || d == -1) && forall i :: 0 <= i < |s| ==> s[i].direction != d
    ensures r.Success? ==> Sorting.Sorted(r.value, d == -1)
    ensures r.Success? ==> multiset(r.value) == multiset(FloorsAlong(s, d))
    ensures r.Success? ==> forall f :: f in r.value <==> Request(f, d) in s
  {
    if d != 1 && d != -1 then Failure(ImproperDirection)
    else
      FloorsAlongMembers(s, d);
      var floors := FloorsAlong(s, d);
      if floors == [] then
        assert forall i :: 0 <= i < |s| ==> s[i].direction != d by {
          forall i | 0 <= i < |s| ensures s[i].direction != d {
            assert Request(s[i].floor, s[i].direction) == s[i];
            assert s[i].floor !in floors;
          }
        }
        Failure(NoRequestAlongDirection)
      else
        assert floors[0] in floors;
        var sorted := Sorting.Sort(floors, d == -1);
        assert forall f :: f in sorted <==> f in floors by {
          forall f ensures f in sorted <==> f in floors {
            assert f in sorted <==> f in multiset(sorted);
            assert f in floors <==> f in multiset(floors);
          }
        }
        Success(sorted)
  }

  /** The listing is the one sorted arrangement of the matching floors: any list
      sorted in travel order holding the same floors is the result. */
  lemma AlongDirectionIsUnique(s: seq<Request>, d: int, floors: seq<int>)
    requires d == 1 || d == -1
    requires Sorting.Sorted(floors, d == -1)
    requires multiset(floors) == multiset(FloorsAlong(s, d)) && floors != []
    ensures AlongDirection(s, d) == Success(floors)
  {
    Sorting.SortIsTheSortedPermutation(FloorsAlong(s, d), floors, d == -1);
  }

  class Elevator {
    const id: int
    var requests: seq<Request>
    var buttonPressed: seq<int>
    var speed: int
    var direction: int

    /** The class invariant kept by assigning and removing: no call is held twice. */
    ghost predicate Valid()
      reads this
    {
      NoDuplicates(requests)
    }

    /** A new elevator: no requests, no buttons, stopped, no direction. */
    constructor (id: int)
      ensures this.id == id
      ensures requests == [] && buttonPressed == []
      ensures speed == 0 && direction == 0
      ensures Valid()
    {
      this.id := id;
      requests := [];
      buttonPressed := [];
      speed := 0;
      direction := 0;
    }

    /** Whether the exact pair `(floor, direction)` is among the requests. */
    predicate IsRequestAssigned(floor: int, direction: int)
      reads this
      ensures IsRequestAssigned(floor, direction) <==>
                exists i :: 0 <= i < |requests| && requests[i].floor == floor && requests[i].direction == direction
    {
      Request(floor, direction) in requests
    }

    method AssignRequest(floor: int, direction: int)
      modifies this`requests
      ensures requests == Assigned(old(requests), Request(floor, direction))
      ensures IsRequestAssigned(floor, direction)
      ensures old(IsRequestAssigned(floor, direction)) ==> requests == old(requests)
      ensures !old(IsRequestAssigned(floor, direction)) ==> requests == old(requests) + [Request(floor, direction)]
      ensures old(Valid()) ==> Valid()
    {
      if !IsRequestAssigned(floor, direction) {
        requests := requests + [Request(floor, direction)];
      }
    }

    method RemoveRequest(floor: int, direction: int)
      modifies this`requests
      ensures requests == RemovedFirst(old(requests), Request(floor, direction))
      ensures !old(IsRequestAssigned(floor, direction)) ==> requests == old(requests)
      ensures old(Valid()) ==> Valid() && !IsRequestAssigned(floor, direction)
    {
      var r := Request(floor, direction);
      if IsRequestAssigned(floor, direction) {
        // list.remove: find the first equal entry, then close the gap
        var i := 0;
        while requests[i] != r
          invariant 0 <= i < |requests|
          invariant r in requests[i..]
          invariant forall k :: 0 <= k < i ==> requests[k] != r
          decreases |requests| - i
        {
          assert requests[i..] == [requests[i]] + requests[i + 1..];
          i := i + 1;
        }
        assert i == FirstIndex(requests, r);
        RemovedFirstDeletesFirstOccurrence(requests, r);
        if NoDuplicates(requests) {
          RemovedFirstUnassigns(requests, r);
        }
        requests := requests[..i] + requests[i + 1..];
      }
    }

    /** Floors of the requests in direction `d`, in the order the elevator
        travels past them. */
    function RequestsAlongDirection(d: int): (r: Result<seq<int>, Error>)
      reads this
      ensures r == Failure(ImproperDirection) <==> d != 1 && d != -1
      ensures r == Failure(NoRequestAlongDirection) <==>
                (d == 1 || d == -1) && forall i :: 0 <= i < |requests| ==> requests[i].direction != d
      ensures r.Success? ==> Sorting.Sorted(r.value, d == -1)
      ensures r.Success? ==> forall f :: multiset(r.value)[f] == multiset(requests)[Request(f, d)]
    {
      AlongDirection(requests, d)
    }

    /** Whether the cabin button for floor `btn` is lit. */
    predicate IsButtonPressed(btn: int)
      reads this
      ensures IsButtonPressed(btn) <==> exists i :: 0 <= i < |buttonPressed| && buttonPressed[i] == btn
    {
      btn in buttonPressed
    }
  }

  /** The request lifecycle on a new elevator: a call is unassigned, assigned
      after `assign_request`, and unassigned again after `remove_request`. */
  method RequestLifecycle() returns (before: bool, during: bool, after: bool)
    ensures !before && during && !after
  {
    var el := new Elevator(0);
    before := el.IsRequestAssigned(1, -1);
    el.AssignRequest(1, -1);
    during := el.IsRequestAssigned(1, -1);
    el.RemoveRequest(1, -1);
    after := el.IsRequestAssigned(1, -1);
  }

  /** A call is held only for the direction it was assigned with. */
  method DirectionDistinguishesRequests() returns (down: bool, up: bool)
    ensures down && !up
  {
    var el := new Elevator(0);
    el.AssignRequest(1, -1);
    down := el.IsRequestAssigned(1, -1);
    up := el.IsRequestAssigned(1, 1);
  }

  const ListingCalls := [Request(3, -1), Request(1, 1), Request(7, 1), Request(8, -1), Request(1, -1)]

  /** One step of the filter: the head call is kept exactly when it has direction `d`. */
  lemma FloorsAlongStep(s: seq<Request>, d: int)
    requires s != []
    ensures FloorsAlong(s, d) == (if s[0].direction == d then [s[0].floor] else []) + FloorsAlong(s[1..], d)
  {
  }

  lemma ListingFloorsDown()
    ensures FloorsAlong(ListingCalls, -1) == [3, 8, 1]
  {
    var s := ListingCalls;
    FloorsAlongStep(s[4..], -1);
    FloorsAlongStep(s[3..], -1);
    FloorsAlongStep(s[2..], -1);
    FloorsAlongStep(s[1..], -1);
    FloorsAlongStep(s, -1);
  }

  lemma ListingFloorsUp()
    ensures FloorsAlong(ListingCalls, 1) == [1, 7]
  {
    var s := ListingCalls;
    FloorsAlongStep(s[4..], 1);
    FloorsAlongStep(s[3..], 1);
    FloorsAlongStep(s[2..], 1);
    FloorsAlongStep(s[1..], 1);
    FloorsAlongStep(s, 1);
  }

  /** Assigning the five calls one after another to an empty list gives them
      in assignment order. */
  lemma ListingAssigned()
    ensures Assigned(Assigned(Assigned(Assigned(Assigned([], Request(3, -1)), Request(1, 1)), Request(7, 1)),
                              Request(8, -1)), Request(1, -1)) == ListingCalls
  {
    var s1 := [Request(3, -1)];
    var s2 := s1 + [Request(1, 1)];
    var s3 := s2 + [Request(7, 1)];
    var s4 := s3 + [Request(8, -1)];
    assert Request(1, 1) !in s1 && Request(7, 1) !in s2 && Request(8, -1) !in s3 && Request(1, -1) !in s4;
    assert s4 + [Request(1, -1)] == ListingCalls;
  }

  /** The downward floors in travel order are the filtered floors rearranged. */
  lemma DownwardFloorsReordered()
    ensures Sorting.Sorted([8, 3, 1], true)
    ensures multiset([8, 3, 1]) == multiset([3, 8, 1])
  {
    assert [8, 3, 1] == [8] + [3] + [1];
    assert [3, 8, 1] == [3] + [8] + [1];
  }

  /** The upward floors are already in travel order. */
  lemma UpwardFloorsInOrder()
    ensures Sorting.Sorted([1, 7], false)
  {
  }

  /** The downward listing of the five calls. */
  lemma ListingDown()
    ensures AlongDirection(ListingCalls, -1) == Success([8, 3, 1])
  {
    ListingFloorsDown();
    DownwardFloorsReordered();
    AlongDirectionIsUnique(ListingCalls, -1, [8, 3, 1]);
  }

  /** The upward listing of the five calls. */
  lemma ListingUp()
    ensures AlongDirection(ListingCalls, 1) == Success([1, 7])
  {
    var floors := FloorsAlong(ListingCalls, 1);
    ListingFloorsUp();
    UpwardFloorsInOrder();
    AlongDirectionIsUnique(ListingCalls, 1, floors);
  }

  /** Five assigned calls listed by direction: downward floors descend, upward
      floors ascend, and direction -2 is refused. */
  method DirectionListing() returns (down: Result<seq<int>, Error>, up: Result<seq<int>, Error>, bad: Result<seq<int>, Error>)
    ensures down == Success([8, 3, 1])
    ensures up == Success([1, 7])
    ensures bad == Failure(ImproperDirection)
  {
    var el := new Elevator(0);
    bad := el.RequestsAlongDirection(-2);
    el.AssignRequest(3, -1);
    el.AssignRequest(1, 1);
    el.AssignRequest(7, 1);
    el.AssignRequest(8, -1);
    el.AssignRequest(1, -1);
    ListingAssigned();
    ListingDown();
    ListingUp();
    down := el.RequestsAlongDirection(-1);
    up := el.RequestsAlongDirection(1);
  }

  /** Button checks on an elevator whose lit buttons are 2, 5 and 8. */
  method ButtonCheck() returns (two: bool, three: bool)
    ensures two && !three
  {
    var el := new Elevator(0);
    el.buttonPressed := [2, 5, 8];
    two := el.IsButtonPressed(2);
    three := el.IsButtonPressed(3);
  }
}
