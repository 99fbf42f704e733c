# Elevator dispatch bot — request bookkeeping, cost metric, fleet set-up and stop rule

This project models, in Dafny, the core of a small bot that drives the elevators of a
simulated building. The model covers four pieces:

- **Per-elevator request bookkeeping** (`elevator.dfy`, module `Elevators`). Each
  elevator keeps the floor calls `(floor, direction)` it has accepted and the cabin
  buttons lit inside it. Calls are assigned idempotently and removed by deleting the
  first matching entry. A direction query lists the floors called in that direction,
  in the order the elevator travels past them.
  The `Elevator` class holds the request list as a `seq` field. `AssignRequest` and
  `RemoveRequest` update it in place, and their contracts tie the new list to the
  functions `Assigned` and `RemovedFirst`. The lemmas about those functions give
  idempotence, the no-duplicates invariant and "every other call keeps its place".
  The ordering used by `list.sort()` lives in `sorting.dfy` (module `Sorting`). It is
  an insertion sort into ascending order, or into descending order for
  `reverse=True`. It is proved sorted and a permutation, and to be the only sorted
  permutation.
- **The load-weighted cost metric and the home-floor hooks** (`strategy.dfy`, module
  `Strategy`). The cost of sending an elevator to a call is
  `|distance| * (1 + (requests + buttons)^2)`. `SplitHome` parks the lower half of
  the ids at the ground floor and the rest at the top floor.
- **Fleet construction** (`controller.dfy`, module `Controller`). The controller
  checks the plan argument, then appends `n_els` new elevators with ids `0..n_els-1`.
  Calling `init_elevators` again appends a second batch.
- **The stop rule** (`go.dfy`, module `Go`). This is the early-return cascade of
  `should_el_stop` over one elevator's reported state and the list of floor calls,
  together with its helpers `_floor_requests`, `_is_floor_requested` and `iter_els`.

The Python exceptions become `Result` values (`wrappers.dfy`):

- the `ValueError` for a bad direction;
- the `IndexError` when no call has the requested direction;
- the `ValueError` of `max()` over no calls;
- the plan `TypeError`.

## Model

| member | source | states |
|---|---|---|
| `Elevators.Elevator.constructor` | elevator.py:7-14 | a new elevator has the given id, no requests, no lit buttons, speed 0 and direction 0 |
| `Elevators.Elevator.IsRequestAssigned` | elevator.py:16-17 | true exactly when some entry of the request list has both the given floor and the given direction |
| `Elevators.DirectionDistinguishesRequests` | elevator.py:16-17 | after assigning `(1, -1)`, that call is held but `(1, 1)`, at the same floor, is not |
| `Elevators.Assigned` | elevator.py:19-22 | after assigning, the call is present; the old list is a prefix of the new one; nothing else is added; no duplicates are introduced |
| `Elevators.AssignIdempotent` | elevator.py:19-22 | assigning the same call twice gives the same list as assigning it once |
| `Elevators.Elevator.AssignRequest` | elevator.py:19-22 | the list is unchanged if the call was already held, otherwise the call is appended at the end; afterwards the call is held; no duplicates are introduced |
| `Elevators.RemovedFirst` | elevator.py:24-27 | an absent call leaves the list unchanged; a present call shortens it by exactly one |
| `Elevators.RemovedFirstDeletesFirstOccurrence` | elevator.py:24-27 | removal deletes exactly the entry at the first occurrence of the call; all other entries stay in their original order |
| `Elevators.RemovedFirstCounts` | elevator.py:27 | removal takes away one copy of the call, if there is one, and nothing else |
| `Elevators.RemovedFirstUnassigns` | elevator.py:24-27 | on a list without duplicates, the removed call is no longer held and the list still has no duplicates |
| `Elevators.Elevator.RemoveRequest` | elevator.py:24-27 | the new list is the old one with the first occurrence deleted (a no-op when absent); under no duplicates the call is afterwards unassigned |
| `Elevators.EditsKeepNoDuplicates` | elevator.py:19-27 | any sequence of assigns and removes applied to a duplicate-free list yields a duplicate-free list |
| `Elevators.RequestLifecycle` | tests/test_elevator.py:13-20 | on a new elevator, a call is unassigned, then assigned after `assign_request`, then unassigned again after `remove_request` |
| `Elevators.FloorsAlong` | elevator.py:34-38 | the filtered floors hold each floor `f` exactly as many times as the list holds the call `(f, d)`, and are never more than the calls |
| `Elevators.FloorsAlongMembers` | elevator.py:34-38 | a floor is among the filtered floors exactly when a call at that floor in direction `d` is held |
| `Elevators.AlongDirection` | elevator.py:29-43 | a direction other than 1 or -1 gives `ImproperDirection`; no call in that direction gives `NoRequestAlongDirection`; otherwise the result is a permutation of the matching floors, ascending for 1 and descending for -1 |
| `Elevators.AlongDirectionIsUnique` | elevator.py:39-43 | any list that is sorted in travel order and is a permutation of the matching floors is the result |
| `Elevators.ListingAssigned` | tests/test_elevator.py:33-34 | assigning the five distinct calls in turn to an empty list keeps all of them, in assignment order |
| `Elevators.Elevator.RequestsAlongDirection` | elevator.py:29-43 | on the elevator's own requests: a direction other than 1 or -1 gives `ImproperDirection`; no held call in that direction gives `NoRequestAlongDirection`; otherwise the floors are sorted in travel order and hold each floor as often as the call `(floor, d)` is held |
| `Elevators.DirectionListing` | tests/test_elevator.py:30-40 | direction -2 is refused; for the five calls `(3,-1) (1,1) (7,1) (8,-1) (1,-1)` the listing is `[8, 3, 1]` downwards and `[1, 7]` upwards |
| `Elevators.ListingDown` | tests/test_elevator.py:36-37 | the downward listing of the five calls is `[8, 3, 1]` |
| `Elevators.ListingUp` | tests/test_elevator.py:39-40 | the upward listing of the five calls is `[1, 7]` |
| `Elevators.Elevator.IsButtonPressed` | elevator.py:45-47 | true exactly when the floor is among the lit cabin buttons |
| `Elevators.ButtonCheck` | tests/test_elevator.py:22-27 | with buttons `[2, 5, 8]` lit, button 2 is pressed and button 3 is not |
| `Sorting.Insert` | elevator.py:42 | inserting into a sorted list keeps it sorted and adds exactly the one element |
| `Sorting.Sort` | elevator.py:42 | the result is sorted in the requested order and is a permutation of the input |
| `Sorting.SortedUnique` | elevator.py:42 | two lists sorted in the same order with the same elements are equal |
| `Sorting.SortIsTheSortedPermutation` | elevator.py:42 | every sorted permutation of the input equals the sorted result |
| `Strategy.DistanceTo` | tests/test_elevator.py:42-45 | the signed distance added to the elevator's floor gives the target floor |
| `Strategy.Cost` | strategy.py:28-30 | the cost is never negative; it is zero exactly at distance zero; it is never below the absolute distance |
| `Strategy.DistanceMetric` | strategy.py:22-30 | the cost is never negative; it is zero exactly when the call is at the elevator's floor; it is never less than the raw distance |
| `Strategy.MetricIgnoresDirection` | strategy.py:28 | two calls at the same floor with different directions cost the same |
| `Strategy.CostMonotoneInLoad` | strategy.py:25-30 | at a fixed distance, more requests and buttons never lower the cost, and raise it strictly when the distance is not zero |
| `Strategy.AssignNeverLowersCost` | strategy.py:25-30 | assigning a call never makes the elevator cheaper for any other call; a newly held call makes it strictly dearer for every call away from its floor |
| `Strategy.BusyElevatorLoses` | strategy.py:22-30 | an idle elevator 4 floors away costs less than one 2 floors away that holds 2 requests and 2 buttons (4 against 34) |
| `Strategy.Name` | strategy.py:11-13 | the strategy's name is its class name lower-cased, made of lower-case letters: `basestrategy` and `splithome` |
| `Strategy.BaseInitElevators` | strategy.py:15-20 | the base hook leaves every elevator's home floor as it was |
| `Strategy.SplitHomeFloor` | strategy.py:41-44 | the home floor is 0 or the top floor; negative ids go to 0, ids at or beyond the fleet size go to the top |
| `Strategy.SplitHomeHalves` | strategy.py:33-44 | for ids `0..n-1`, the first `n / 2` park at floor 0 and the remaining `n - n / 2` at the top floor |
| `Strategy.SplitHomeInitElevators` | strategy.py:37-44 | every elevator in the list gets home 0 if its id is below `len / 2` (floor division), and the top floor otherwise; nothing else is modified |
| `Strategy.InitElevators` | strategy.py:15-44 | the chosen strategy's hook: the base strategy changes nothing, `SplitHome` sets the split home floors |
| `Controller.PlanCheckAsWritten` | controller.py:13-14 | as written, only a class derived from `BasePlan` passes; everything else, plan instances included, gets `TypeError` |
| `Controller.PlanInstanceRefusedAsWritten` | controller.py:13-14 | a plan instance is refused by the check as written but accepted by the corrected check |
| `Controller.PlanCheck` | controller.py:13-14 | a subclass of `BasePlan`, or an instance of one, is accepted with its plan; anything else gets `TypeError` |
| `Controller.PlanChecksAgreeOnClasses` | controller.py:13-14 | the two checks agree on every argument that is not an instance |
| `Controller.Controller.constructor` | controller.py:10-17 | the fleet has exactly `n_els` distinct new elevators; elevator `i` has id `i` and starts with no requests, no buttons, speed 0 and direction 0 |
| `Controller.Controller.InitElevators` | controller.py:19-21 | appends `n_els` distinct new elevators with ids `0..n_els-1`; the elevators already present are kept in place and untouched |
| `Controller.NewController` | controller.py:10-17 | a rejected plan argument gives `TypeError`; an accepted one (under the corrected check, see Left out) gives a new controller holding `n_els` new elevators numbered by index |
| `Controller.DefaultFleet` | tests/test_controller.py:32-38 | a controller built from the plain `BasePlan` class has exactly two elevators, and their ids in fleet order are 0 and 1 |
| `Controller.InitTwice` | controller.py:19-21 | calling `init_elevators` again doubles the fleet; the second half repeats ids `0..n-1` rather than resetting the first |
| `Go.IterEls` | go.py:32-34 | yields `n` ids (none when `n` is not positive) and the id at position `i` is `i` |
| `Go.FloorRequests` | go.py:82-83 | one floor per call, in call order |
| `Go.IsFloorRequested` | go.py:75-80 | true exactly when some call is at the floor and, when a direction is given, has that direction |
| `Go.DirectedImpliesUndirected` | go.py:75-80 | a call at a floor in a given direction is a call at that floor |
| `Go.Max` | go.py:97 | the largest requested floor: it is one of the floors and no floor exceeds it |
| `Go.Min` | go.py:97 | the smallest requested floor: it is one of the floors and no floor is below it |
| `Go.ShouldElStop` | go.py:85-102 | a stopped elevator is never told to stop; a moving one stops at a lit cabin button; otherwise no calls means `ValueError`, and it stops exactly at the highest or lowest called floor or at a floor called in its own direction |
| `Go.StopFollowsCalls` | go.py:85-102 | a moving elevator at a floor called in its direction stops; one at a floor with no call and no lit button does not |

## Left out

- The elevator's floor: the `Elevator` in `elevator.py` has no `floor` field and no `distance_to`. The cost metric therefore takes the elevator's floor as a parameter, and `DistanceTo` is the subtraction that tests/test_elevator.py:42-45 expects.
- `Strategy.Car`: `SplitHome` reads `id_`, `n_floors` and `home_floor`, which the `Elevator` class in elevator.py does not define. They live on a separate record class, `Car`, with `id` and `nFloors` constant.
- Elevators.AlongDirection: when no call has the requested direction, the source fails with an `IndexError` (it indexes an empty unzip). The model returns `NoRequestAlongDirection` for this case rather than excluding it by a precondition.
- Go.ShouldElStop: it takes the elevator's state directly, because `_elevator_data` (go.py:70-73) calls `iteritems` on a list and cannot work. With no floor calls, `max()` raises `ValueError`, which is modelled as `NoFloorCalls`.
- Go.IsFloorRequested: the direction is `None` or a value (`Option`). `should_el_stop` always passes the elevator's direction.
- `go.py` apart from the stop rule is not modelled: `__init__`, `init_commands`, `_send_half_up` (random sampling, network), `loop` (sleeping), `should_el_move` (an empty stub) and `get_commands` (builds a `Command` without its required direction).
- `boxlift_api.py` (HTTP client, tokens, printing) and `main.py` (command line, polling loop, debugger hooks) are I/O and not part of this model.
- `plan.py` and `plans.py` hold only constants. `Plan` carries them as read-only values, and `BasePlan` holds the defaults.
- Controller.Plan: `n_els` is a natural number. A negative count, which `range` would treat as empty, is not modelled.
- The `**kwargs` of `Controller.__init__` are ignored by the source and not modelled. So is the class attribute `do_shuffle` of `BaseStrategy`, which nothing in elevator.py, strategy.py, controller.py or go.py reads.
- Dispatch rules that tests/test_elevator.py, tests/test_controller.py and main.py call, but that none of elevator.py, strategy.py, controller.py or go.py implements, are not modelled. These are `update_state`, `direction_to`, `has_requests`, `has_buttons`, `find_elevator_by_req_otw`, on-the-way and metric assignment, the shuffle and the per-tick command choice.
- `Controller.NewController`: it follows the corrected plan check `PlanCheck`, so it builds a controller for an instance of a `BasePlan` subclass, which controller.py:13 refuses with `TypeError` (see Findings); `PlanCheckAsWritten` models the refusal.
- `Strategy.Name` lower-cases ASCII letters only. The class names are ASCII.

## Findings

| source | as written | input that shows it | evidently intended | confidence | as-written member | corrected member |
|---|---|---|---|---|---|---|
| controller.py:13-14 | `issubclass(plan, BasePlan)` runs first and raises `TypeError` on any argument that is not a class, so the `isinstance` test is never reached for an instance | `Controller(Training1())`, an instance of a `BasePlan` subclass | instances of a `BasePlan` subclass are accepted, as the second half of the condition shows | medium, not executed | `Controller.PlanInstanceRefusedAsWritten` | `Controller.PlanCheck` |
