/** The ghoul worker: a creep on either the harvest line (its memory names a source)
    or the upgrade line (it does not). Each tick it re-decides its goal from two
    capacity extremes and then issues exactly one action, moving toward the target
    instead when the host answers that it is out of range. */
module Ghoul {
  import opened Host
  import Abstract

  const GhoulRole := "ghoul"

  /** A storage structure as `findContainerWithCapacity` returns it: its id and the
      free energy capacity of its store. */
  datatype Container = Container(id: string, freeEnergy: int)

  /** What a ghoul observes of the world this tick. The capacity predicates and the
      container choice are the wrapper's helpers, taken here as given. */
  datatype CreepView = CreepView(
    full: bool,                     // hasFullCapacity(RESOURCE_ENERGY)
    empty: bool,                    // hasEmptyCapacity(RESOURCE_ENERGY)
    container: Option<Container>,   // findContainerWithCapacity(RESOURCE_ENERGY)
    sources: seq<string>,           // ids of creep.room.find(FIND_SOURCES), in order
    controller: Option<string>,     // id of creep.room.controller
    result: int)                    // the code the host answers to the action attempted

  /** `Ghoul.isA`: the creep's memory carries the ghoul role. */
  predicate IsA(m: CreepMemory)
  {
    m.role == Some(GhoulRole)
  }

  /** `Ghoul.createMemory`: the default record `{role: 'ghoul'}`. */
  function CreateMemory(): CreepMemory
  {
    CreepMemory(Some(GhoulRole), None, None)
  }

  /** `isHarvesting`: `!!memory.harvest`. */
  predicate IsHarvesting(m: CreepMemory)
  {
    Truthy(m.harvest)
  }

  /** `isUpgrading`: `!memory.harvest`. */
  predicate IsUpgrading(m: CreepMemory)
  {
    !Truthy(m.harvest)
  }

  /** Every record is on exactly one of the two lines. */
  lemma ExactlyOneLine(m: CreepMemory)
    ensures IsHarvesting(m) != IsUpgrading(m)
  {
  }

  /** The default record is a ghoul on the upgrade line with no goal, and nothing else. */
  lemma DefaultMemoryIsBareUpgrader()
    ensures IsA(CreateMemory()) && IsUpgrading(CreateMemory())
    ensures forall m: CreepMemory :: IsA(m) && m.harvest.None? && m.goal.None? ==> m == CreateMemory()
  {
  }

  /** `new Ghoul(creep)`: the wrapper constructor with the expected role `ghoul`. */
  function Construct(id: string, m: CreepMemory): (r: Result<Abstract.Handle>)
  {
    Abstract.Construct(Abstract.CreepText(m.role, id), id, m.role, Some(GhoulRole))
  }

  /** Construction succeeds exactly on the creeps `isA` accepts, so wrapping a creep
      after `isA` has accepted it never throws. */
  lemma ConstructSucceedsIffIsA(id: string, m: CreepMemory)
    ensures Construct(id, m).Ok? <==> IsA(m)
    ensures IsA(m) ==> Construct(id, m).value.role == Some(GhoulRole)
  {
  }

  // ---------------------------------------------------------------------------
  // Action steps

  /** `creep.room.controller!` as an action target: `undefined` when the room has none. */
  function ControllerTarget(controller: Option<string>): Target
  {
    if controller.Some? then Obj(controller.value) else Undefined
  }

  /** `runUpgradeGoal`: transfer energy to the room controller. */
  function UpgradeGoal(v: CreepView): seq<CreepCommand>
  {
    Attempt(Transfer, ControllerTarget(v.controller), v.result)
  }

  /** `runWithdrawGoal`: withdraw energy from the container. */
  function WithdrawGoal(c: Container, v: CreepView): seq<CreepCommand>
  {
    Attempt(Withdraw, Obj(c.id), v.result)
  }

  /** `runDepositGoal`: transfer energy into the container. */
  function DepositGoal(c: Container, v: CreepView): seq<CreepCommand>
  {
    Attempt(Transfer, Obj(c.id), v.result)
  }

  /** `runHarvestGoal`: harvest the room source whose id is `memory.harvest`; with no such
      source the creep gives up and suicides. */
  function HarvestGoal(harvest: Option<string>, v: CreepView): seq<CreepCommand>
  {
    if harvest.Some? && harvest.value in v.sources then Attempt(Harvest, Obj(harvest.value), v.result)
    else [Suicide]
  }

  // ---------------------------------------------------------------------------
  // Goal decisions

  /** The upgrade line's goal update: full means `upgrade`, empty deletes the goal,
      and a partial load keeps it. */
  function NextUpgradeGoal(goal: Option<string>, v: CreepView): Option<string>
  {
    if v.full then Some("upgrade")
    else if v.empty then None
    else goal
  }

  /** The harvest line's goal update: full means `upgrade` when the container has no free
      capacity left and `deposit` otherwise (also when there is no container), empty deletes
      the goal, and a partial load keeps it. */
  function NextHarvestGoal(goal: Option<string>, v: CreepView): Option<string>
  {
    if v.full then
      (if v.container.Some? && v.container.value.freeEnergy == 0 then Some("upgrade") else Some("deposit"))
    else if v.empty then None
    else goal
  }

  /** The upgrade line's action for the goal it settled on. */
  function UpgradeLineAction(goal: Option<string>, v: CreepView): seq<CreepCommand>
  {
    if goal == Some("upgrade") then UpgradeGoal(v)
    else if v.container.None? then [Suicide]
    else WithdrawGoal(v.container.value, v)
  }

  /** The harvest line's action for the goal it settled on. */
  function HarvestLineAction(goal: Option<string>, harvest: Option<string>, v: CreepView): seq<CreepCommand>
  {
    if goal == Some("deposit") then
      (if v.container.None? then [Suicide] else DepositGoal(v.container.value, v))
    else if goal == Some("upgrade") then UpgradeGoal(v)
    else HarvestGoal(harvest, v)
  }

  /** The record after a step and the host calls the step made. */
  datatype StepResult = StepResult(memory: CreepMemory, commands: seq<CreepCommand>)

  /** `Ghoul.run` as a value: the harvest line when `memory.harvest` is truthy, else the
      upgrade line. A step rewrites the goal and nothing else in the record. */
  function Step(m: CreepMemory, v: CreepView): (r: StepResult)
    ensures r.memory == m.(goal := r.memory.goal)
  {
    if Truthy(m.harvest) then
      var g := NextHarvestGoal(m.goal, v);
      StepResult(m.(goal := g), HarvestLineAction(g, m.harvest, v))
    else
      var g := NextUpgradeGoal(m.goal, v);
      StepResult(m.(goal := g), UpgradeLineAction(g, v))
  }

  // ---------------------------------------------------------------------------
  // Properties of a step

  /** `run` takes the harvest line exactly when `memory.harvest` is truthy, and the upgrade
      line otherwise: only the harvest line harvests, only the upgrade line withdraws. */
  lemma RunDispatch(m: CreepMemory, v: CreepView)
    ensures IsHarvesting(m) ==> Step(m, v).memory.goal == NextHarvestGoal(m.goal, v)
    ensures IsUpgrading(m) ==> Step(m, v).memory.goal == NextUpgradeGoal(m.goal, v)
    ensures IsHarvesting(m) ==> forall t :: Act(Withdraw, t) !in Step(m, v).commands
    ensures IsUpgrading(m) ==> forall t :: Act(Harvest, t) !in Step(m, v).commands
  {
  }

  /** Upgrade line: full sets `upgrade` (and wins over empty), otherwise empty deletes the
      goal, otherwise the goal stays. */
  lemma UpgradeLineGoal(m: CreepMemory, v: CreepView)
    requires IsUpgrading(m)
    ensures v.full ==> Step(m, v).memory.goal == Some("upgrade")
    ensures !v.full && v.empty ==> Step(m, v).memory.goal == None
    ensures !v.full && !v.empty ==> Step(m, v).memory.goal == m.goal
  {
  }

  /** Harvest line when full: the goal becomes `upgrade` exactly when a container exists
      and has no free energy capacity, and `deposit` otherwise. */
  lemma HarvestLineFullGoal(m: CreepMemory, v: CreepView)
    requires IsHarvesting(m) && v.full
    ensures Step(m, v).memory.goal == Some("upgrade") <==> v.container.Some? && v.container.value.freeEnergy == 0
    ensures Step(m, v).memory.goal == Some("deposit") <==> !(v.container.Some? && v.container.value.freeEnergy == 0)
  {
  }

  /** Harvest line when empty (and not full): the goal is deleted and the creep goes for
      its source; with a partial load the goal stays. */
  lemma HarvestLineEmptyGoal(m: CreepMemory, v: CreepView)
    requires IsHarvesting(m) && !v.full
    ensures v.empty ==> Step(m, v).memory.goal == None && Step(m, v).commands == HarvestGoal(m.harvest, v)
    ensures !v.empty ==> Step(m, v).memory.goal == m.goal
  {
  }

  /** Hysteresis: between the two capacity extremes a step leaves the record as it was,
      whichever line the creep is on. */
  lemma PartialLoadKeepsMemory(m: CreepMemory, v: CreepView)
    requires !v.full && !v.empty
    ensures Step(m, v).memory == m
  {
  }

  /** When the step suicides, it is exactly because of one of the three missing targets. */
  predicate SuicideCase(m: CreepMemory, v: CreepView)
  {
    var g := Step(m, v).memory.goal;
    if IsHarvesting(m) then
      (g == Some("deposit") && v.container.None?) ||
      (g != Some("deposit") && g != Some("upgrade") && m.harvest.value !in v.sources)
    else
      g != Some("upgrade") && v.container.None?
  }

  /** A ghoul suicides exactly in the three cases (deposit with no container, withdraw with
      no container, no source with the remembered id), and then it attempts no action. */
  lemma SuicideExactly(m: CreepMemory, v: CreepView)
    ensures Suicide in Step(m, v).commands <==> SuicideCase(m, v)
    ensures Suicide in Step(m, v).commands ==> Step(m, v).commands == [Suicide]
  {
  }

  /** Every step either suicides alone or attempts one action and then moves to that
      action's target exactly when the host answered `ERR_NOT_IN_RANGE`; never two moves. */
  lemma StepShape(m: CreepMemory, v: CreepView)
    ensures var cs := Step(m, v).commands;
      cs == [Suicide] ||
      (1 <= |cs| <= 2 && cs[0].Act? &&
       (|cs| == 2 <==> v.result == ERR_NOT_IN_RANGE) &&
       (|cs| == 2 ==> cs[1] == MoveTo(cs[0].target)))
    ensures var cs := Step(m, v).commands;
      forall i, j :: 0 <= i < j < |cs| ==> !(cs[i].MoveTo? && cs[j].MoveTo?)
  {
    var cs := Step(m, v).commands;
    assert cs == [Suicide] || (1 <= |cs| <= 2 && cs[0].Act? && !cs[0].MoveTo?);
  }

  // ---------------------------------------------------------------------------
  // The step as it runs: the goal is rewritten in place in the persisted record

  /** `Ghoul.run` on the creep `name`, whose record carries the ghoul role. */
  method Run(store: MemoryStore, name: string, v: CreepView) returns (cmds: seq<CreepCommand>)
    requires name in store.creeps && IsA(store.creeps[name])
    modifies store`creeps
    ensures store.creeps == old(store.creeps)[name := Step(old(store.creeps[name]), v).memory]
    ensures cmds == Step(old(store.creeps[name]), v).commands
  {
    if Truthy(store.creeps[name].harvest) {
      cmds := RunHarvest(store, name, v);
    } else {
      cmds := RunUpgrade(store, name, v);
    }
  }

  /** `runUpgrade`: update the goal in place, then act on it. */
  method RunUpgrade(store: MemoryStore, name: string, v: CreepView) returns (cmds: seq<CreepCommand>)
    requires name in store.creeps
    modifies store`creeps
    ensures store.creeps == old(store.creeps)[name := old(store.creeps[name]).(goal := NextUpgradeGoal(old(store.creeps[name]).goal, v))]
    ensures cmds == UpgradeLineAction(store.creeps[name].goal, v)
  {
    if v.full {
      store.creeps := store.creeps[name := store.creeps[name].(goal := Some("upgrade"))];
    } else if v.empty {
      store.creeps := store.creeps[name := store.creeps[name].(goal := None)];
    }
    cmds := UpgradeLineAction(store.creeps[name].goal, v);
  }

  /** `runHarvest`: update the goal in place, then act on it. */
  method RunHarvest(store: MemoryStore, name: string, v: CreepView) returns (cmds: seq<CreepCommand>)
    requires name in store.creeps
    modifies store`creeps
    ensures store.creeps == old(store.creeps)[name := old(store.creeps[name]).(goal := NextHarvestGoal(old(store.creeps[name]).goal, v))]
    ensures cmds == HarvestLineAction(store.creeps[name].goal, store.creeps[name].harvest, v)
  {
    if v.full {
      var empty := v.container.Some? && v.container.value.freeEnergy == 0;
      if empty {
        store.creeps := store.creeps[name := store.creeps[name].(goal := Some("upgrade"))];
      } else {
        store.creeps := store.creeps[name := store.creeps[name].(goal := Some("deposit"))];
      }
    } else if v.empty {
      store.creeps := store.creeps[name := store.creeps[name].(goal := None)];
    }
    cmds := HarvestLineAction(store.creeps[name].goal, store.creeps[name].harvest, v);
  }
}
