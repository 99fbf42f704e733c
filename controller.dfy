/** The controller: checks the building plan it is given and builds the fleet
    of elevators it owns. */
module Controller {
  import opened Wrappers
  import opened Elevators

  /** A building plan: its name, the number of elevators, the number of
      iterations the game runs and the number of floors. */
  datatype Plan = Plan(name: Option<string>, nEls: nat, nIter: nat, nFloors: nat)

  /** `BasePlan` as declared: no name, two elevators, thirty iterations, ten floors. */
  const BasePlan := Plan(None, 2, 30, 10)

  /** What may be passed as the plan argument: a class, an instance, or any other
      value. `derived` says whether the class (or the instance's class) is
      `BasePlan` or one of its subclasses. */
  datatype PlanArg =
    | PlanClass(derived: bool, plan: Plan)
    | PlanInstance(derived: bool, plan: Plan)
    | OtherValue

  datatype Error = TypeError

  /** The plan check as written: `issubclass` is evaluated first and raises
      `TypeError` on anything that is not a class, so the `isinstance` test is
      never reached with an instance. */
  function PlanCheckAsWritten(arg: PlanArg): (r: Result<Plan, Error>)
    ensures r.Success? <==> arg.PlanClass? && arg.derived
    ensures r.Success? ==> r.value == arg.plan
  {
    match arg
    case PlanClass(derived, plan) => if derived then Success(plan) else Failure(TypeError)
    case PlanInstance(_, _) => Failure(TypeError)
    case OtherValue => Failure(TypeError)
  }

  /** An instance of a plan class is refused by the check as written. */
  lemma PlanInstanceRefusedAsWritten(plan: Plan)
    ensures PlanCheckAsWritten(PlanInstance(true, plan)) == Failure(TypeError)
    ensures PlanCheck(PlanInstance(true, plan)) == Success(plan)
  {
  }

  /** The plan check the message and the two-sided test intend: a subclass of
      `BasePlan` or an instance of one is accepted, anything else is refused
      with `TypeError`. */
  function PlanCheck(arg: PlanArg): (r: Result<Plan, Error>)
    ensures r.Success? <==> !arg.OtherValue? && arg.derived
    ensures r.Success? ==> r.value == arg.plan
    ensures r.Failure? ==> r.error == TypeError
  {
    if !arg.OtherValue? && arg.derived then Success(arg.plan) else Failure(TypeError)
  }

  /** The two checks agree on everything except plan instances. */
  lemma PlanChecksAgreeOnClasses(arg: PlanArg)
    requires !arg.PlanInstance?
    ensures PlanCheckAsWritten(arg) == PlanCheck(arg)
  {
  }

  /** A freshly built elevator with id `id`: nothing assigned, nothing
      pressed, stopped, no direction. */
  ghost predicate IsNewElevator(el: Elevator, id: int)
    reads el
  {
    el.id == id && el.requests == [] && el.buttonPressed == [] && el.speed == 0 && el.direction == 0
  }

  class Controller {
    const plan: Plan
    var elevators: seq<Elevator>

    /** `__init__` once the plan has passed the check: an empty fleet filled by
        `init_elevators`. */
    constructor (plan: Plan)
      ensures this.plan == plan
      ensures |elevators| == plan.nEls
      ensures forall i :: 0 <= i < |elevators| ==> fresh(elevators[i]) && IsNewElevator(elevators[i], i)
      ensures forall i, j :: 0 <= i < j < |elevators| ==> elevators[i] != elevators[j]
    {
      this.plan := plan;
      elevators := [];
      new;
      InitElevators();
    }

    /** `init_elevators`: appends `plan.nEls` new elevators with ids
        0..nEls-1 and leaves the elevators already there as they are. */
    method InitElevators()
      modifies this`elevators
      ensures |elevators| == old(|elevators|) + plan.nEls
      ensures elevators[..old(|elevators|)] == old(elevators)
      ensures forall i :: old(|elevators|) <= i < |elevators| ==>
                fresh(elevators[i]) && IsNewElevator(elevators[i], i - old(|elevators|))
      ensures forall i, j :: old(|elevators|) <= i < j < |elevators| ==> elevators[i] != elevators[j]
      ensures forall i :: 0 <= i < old(|elevators|) ==> unchanged(elevators[i])
    {
      ghost var before := |elevators|;
      var idx := 0;
      while idx < plan.nEls
        invariant 0 <= idx <= plan.nEls
        invariant |elevators| == before + idx
        invariant elevators[..before] == old(elevators)
        invariant forall i :: before <= i < |elevators| ==>
                    fresh(elevators[i]) && IsNewElevator(elevators[i], i - before)
        invariant forall i, j :: before <= i < j < |elevators| ==> elevators[i] != elevators[j]
      {
        var el := new Elevator(idx);
        elevators := elevators + [el];
        idx := idx + 1;
      }
    }
  }

  /** `Controller(plan)`: refuses anything but a plan with `TypeError`, and
      otherwise builds the controller with its fleet. */
  method NewController(arg: PlanArg) returns (r: Result<Controller, Error>)
    ensures r.Failure? <==> PlanCheck(arg).Failure?
    ensures r.Failure? ==> r.error == TypeError
    ensures r.Success? ==> fresh(r.value) && r.value.plan == arg.plan
    ensures r.Success? ==> |r.value.elevators| == arg.plan.nEls
    ensures r.Success? ==> forall i :: 0 <= i < |r.value.elevators| ==>
              fresh(r.value.elevators[i]) && IsNewElevator(r.value.elevators[i], i)
  {
    match PlanCheck(arg)
    case Failure(e) =>
      r := Failure(e);
    case Success(plan) =>
      var c := new Controller(plan);
      r := Success(c);
  }

  /** A controller built from the plain `BasePlan` class owns exactly two
      elevators, numbered 0 and 1. */
  method DefaultFleet() returns (ids: seq<int>)
    ensures ids == [0, 1]
  {
    var r := NewController(PlanClass(true, BasePlan));
    var c := r.value;
    ids := seq(|c.elevators|, i requires 0 <= i < |c.elevators| reads c, c.elevators => c.elevators[i].id);
  }

  /** Calling `init_elevators` a second time on a fresh controller doubles the
      fleet: the second batch repeats ids 0..n-1 instead of resetting. */
  method InitTwice(plan: Plan) returns (ids: seq<int>)
    ensures |ids| == 2 * plan.nEls
    ensures forall i :: 0 <= i < plan.nEls ==> ids[i] == i
    ensures forall i :: plan.nEls <= i < |ids| ==> ids[i] == i - plan.nEls
  {
    var c := new Controller(plan);
    c.InitElevators();
    ids := seq(|c.elevators|, i requires 0 <= i < |c.elevators| reads c, c.elevators => c.elevators[i].id);
  }
}
