/** Pluggable dispatch policy: a load-weighted cost for handing a floor call to
    an elevator, and a one-time hook that sets each elevator's home floor. */
module Strategy {
  import opened Elevators

  function Abs(x: int): (a: nat)
    ensures a == x || a == -x
  {
    if x < 0 then -x else x
  }

  /** `distance_to`: the signed number of floors from an elevator at `elFloor`
      to `floor`, positive upwards. */
  function DistanceTo(elFloor: int, floor: int): (d: int)
    ensures elFloor + d == floor
  {
    floor - elFloor
  }

  /** The congestion weight of an elevator holding `load` requests and buttons. */
  function LoadFactor(load: nat): (w: nat)
    ensures w >= 1 && w > load
  {
    1 + load * load
  }

  /** The cost of a trip of `distance` floors for an elevator with `load`
      requests and buttons. */
  function Cost(distance: int, load: nat): (c: nat)
    ensures c == 0 <==> distance == 0
    ensures c >= Abs(distance)
  {
    Abs(distance) * LoadFactor(load)
  }

  /** `distance_metric`: the cost of sending the elevator `el`, standing at
      `elFloor`, to the call `req`. */
  function DistanceMetric(el: Elevator, elFloor: int, req: Request): (c: nat)
    reads el
    ensures c == 0 <==> req.floor == elFloor
    ensures c >= Abs(req.floor - elFloor)
  {
    Cost(DistanceTo(elFloor, req.floor), |el.requests| + |el.buttonPressed|)
  }

  /** Only the floor of the call matters, not its direction. */
  lemma MetricIgnoresDirection(el: Elevator, elFloor: int, floor: int, d1: int, d2: int)
    ensures DistanceMetric(el, elFloor, Request(floor, d1)) == DistanceMetric(el, elFloor, Request(floor, d2))
  {
  }

  lemma SquareMonotone(x: nat, y: nat)
    requires x <= y
    ensures x * x <= y * y
    ensures x < y ==> x * x < y * y
  {
  }

  lemma ScaleMonotone(a: nat, x: nat, y: nat)
    requires x <= y
    ensures a * x <= a * y
    ensures a > 0 && x < y ==> a * x < a * y
  {
  }

  /** At a fixed distance a busier elevator never costs less, and costs strictly
      more once the distance is not zero. */
  lemma CostMonotoneInLoad(distance: int, load: nat, load': nat)
    requires load <= load'
    ensures Cost(distance, load) <= Cost(distance, load')
    ensures load < load' && distance != 0 ==> Cost(distance, load) < Cost(distance, load')
  {
    SquareMonotone(load, load');
    ScaleMonotone(Abs(distance), LoadFactor(load), LoadFactor(load'));
  }

  /** Assigning one more call to an elevator never makes it cheaper for any
      other call, and makes it dearer for every call away from its floor. */
  lemma AssignNeverLowersCost(s: seq<Request>, r: Request, buttons: nat, distance: int)
    ensures Cost(distance, |s| + buttons) <= Cost(distance, |Assigned(s, r)| + buttons)
    ensures r !in s && distance != 0 ==> Cost(distance, |s| + buttons) < Cost(distance, |Assigned(s, r)| + buttons)
  {
    CostMonotoneInLoad(distance, |s| + buttons, |Assigned(s, r)| + buttons);
  }

  /** The balancing rule at work: an idle elevator four floors away beats one two
      floors away that already holds two requests and two buttons. */
  lemma BusyElevatorLoses()
    ensures Cost(DistanceTo(9, 5), 0) < Cost(DistanceTo(3, 5), 2 + 2)
  {
  }

  /** An elevator as the initialisation hook sees it: its id, the building's
      top floor, and the home floor the hook sets. */
  class Car {
    const id: int
    const nFloors: int
    var homeFloor: int

    constructor (id: int, nFloors: int, homeFloor: int)
      ensures this.id == id && this.nFloors == nFloors && this.homeFloor == homeFloor
    {
      this.id := id;
      this.nFloors := nFloors;
      this.homeFloor := homeFloor;
    }
  }

  /** The home floor `SplitHome` gives an elevator in a fleet of `nEls`: the
      lower half of the ids (Python 2 integer division) park at the ground
      floor, the others at the top floor. */
  function SplitHomeFloor(id: int, nFloors: int, nEls: nat): (home: int)
    ensures home == 0 || home == nFloors
    ensures id < 0 ==> home == 0
    ensures id >= nEls ==> home == nFloors
  {
    if id < nEls / 2 then 0 else nFloors
  }

  /** The home floors `SplitHome` gives the ids 0..n-1 of a fleet of `nEls`, in
      id order. */
  function SplitHomes(nEls: nat, nFloors: int): (homes: seq<int>)
    ensures |homes| == nEls
  {
    seq(nEls, id requires 0 <= id < nEls => SplitHomeFloor(id, nFloors, nEls))
  }

  /** Half at the ground floor, half at the top: with ids 0..n-1 the first
      `n / 2` elevators park at floor 0 and the remaining `n - n / 2` at the top. */
  lemma SplitHomeHalves(nEls: nat, nFloors: int)
    ensures SplitHomes(nEls, nFloors) == seq(nEls / 2, _ => 0) + seq(nEls - nEls / 2, _ => nFloors)
  {
  }

  /** `BaseStrategy.init_elevators`: leaves every elevator as it is. */
  method BaseInitElevators(cars: seq<Car>)
    ensures forall k :: 0 <= k < |cars| ==> cars[k].homeFloor == old(cars[k].homeFloor)
  {
  }

  /** `SplitHome.init_elevators`: visits every elevator once and sets its home
      floor by its id. */
  method SplitHomeInitElevators(cars: seq<Car>)
    modifies set k | 0 <= k < |cars| :: cars[k]
    ensures forall k :: 0 <= k < |cars| ==> cars[k].homeFloor == SplitHomeFloor(cars[k].id, cars[k].nFloors, |cars|)
  {
    var nEls := |cars|;
    var i := 0;
    while i < nEls
      invariant 0 <= i <= nEls
      invariant forall k :: 0 <= k < i ==> cars[k].homeFloor == SplitHomeFloor(cars[k].id, cars[k].nFloors, nEls)
    {
      var car := cars[i];
      if car.id < nEls / 2 {
        car.homeFloor := 0;
      } else {
        car.homeFloor := car.nFloors;
      }
      i := i + 1;
    }
  }

  /** The strategies a plan can name. */
  datatype StrategyKind = BaseStrategy | SplitHome

  /** The Python class name of each strategy. */
  function ClassName(kind: StrategyKind): (c: string)
  {
    match kind
    case BaseStrategy => "BaseStrategy"
    case SplitHome => "SplitHome"
  }

  function LowerChar(c: char): (l: char)
    ensures !('A' <= l <= 'Z')
    ensures !('A' <= c <= 'Z') ==> l == c
  {
    if 'A' <= c <= 'Z' then (c as int - 'A' as int + 'a' as int) as char else c
  }

  /** `name`: the strategy's class name in lower case. */
  function Name(kind: StrategyKind): (n: string)
    ensures |n| == |ClassName(kind)|
    ensures forall i :: 0 <= i < |n| ==> n[i] == LowerChar(ClassName(kind)[i])
    ensures forall i :: 0 <= i < |n| ==> 'a' <= n[i] <= 'z'
    ensures kind == BaseStrategy ==> n == "basestrategy"
    ensures kind == SplitHome ==> n == "splithome"
  {
    var c := ClassName(kind);
    seq(|c|, i requires 0 <= i < |c| => LowerChar(c[i]))
  }

  /** `init_elevators` of the chosen strategy. */
  method InitElevators(kind: StrategyKind, cars: seq<Car>)
    modifies set k | 0 <= k < |cars| :: cars[k]
    ensures kind == BaseStrategy ==> forall k :: 0 <= k < |cars| ==> cars[k].homeFloor == old(cars[k].homeFloor)
    ensures kind == SplitHome ==>
              forall k :: 0 <= k < |cars| ==> cars[k].homeFloor == SplitHomeFloor(cars[k].id, cars[k].nFloors, |cars|)
  {
    match kind
    case BaseStrategy => BaseInitElevators(cars);
    case SplitHome => SplitHomeInitElevators(cars);
  }
}
