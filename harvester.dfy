/** The legacy harvester: a creep with goals `harvest`, `upgrade` and `refuel`. It
    switches goal on its energy store (empty means harvest; full means refuel or upgrade
    depending on how empty the room's spawn is) and then runs the one branch its goal
    names. A missing target is logged and the tick is skipped. */
module Harvester {
  import opened Host
  import RoleAbstract

  const HarvestTag := "harvest"

  /** A spawn structure's energy store: free capacity and total capacity. */
  datatype SpawnStore = SpawnStore(id: string, freeEnergy: nat, capacity: nat)

  /** What a harvester observes this tick. */
  datatype HarvesterView = HarvesterView(
    used: nat,                    // creep.store.getUsedCapacity(RESOURCE_ENERGY)
    free: nat,                    // creep.store.getFreeCapacity(RESOURCE_ENERGY)
    sources: seq<string>,         // ids of creep.room.find(FIND_SOURCES), in order
    controller: Option<string>,   // id of creep.room.controller
    spawns: seq<SpawnStore>,      // the room's structures of type `spawn`, in order
    result: int)                  // the code the host answers to the action attempted

  /** `Harvester.isA`: the memory role is `harvest`. */
  predicate IsA(m: CreepMemory)
  {
    m.role == Some(HarvestTag)
  }

  /** `Harvester.defaultMemory`: `{goal: 'harvest', role: 'harvest'}`. */
  function DefaultMemory(): CreepMemory
  {
    CreepMemory(Some(HarvestTag), None, Some("harvest"))
  }

  /** `Harvester.toString`: `<${name}#${id}>`. */
  function Text(name: string, id: string): string
  {
    "<" + name + "#" + id + ">"
  }

  /** `new Harvester(creep)`: the `Screepy` constructor with `role()` = `harvest`. */
  function Construct(name: string, id: string, m: CreepMemory): Result<RoleAbstract.Handle>
  {
    RoleAbstract.Construct(Text(name, id), name, m.role, RoleAbstract.HarvestRole)
  }

  /** A harvester can be wrapped exactly when `isA` holds, and the default record is one
      that can, set to harvest. */
  lemma ConstructIffIsA(name: string, id: string, m: CreepMemory)
    ensures Construct(name, id, m).Ok? <==> IsA(m)
    ensures IsA(DefaultMemory()) && DefaultMemory().goal == Some("harvest")
  {
  }

  /** `free / capacity > 0.5`, the spawn-emptiness test, on integers. */
  predicate MostlyEmpty(s: SpawnStore)
  {
    2 * s.freeEnergy > s.capacity
  }

  /** The integer test agrees with the ratio the source computes, whenever the spawn has
      a capacity at all. */
  lemma MostlyEmptyIsRatioAboveHalf(s: SpawnStore)
    requires s.capacity > 0
    ensures MostlyEmpty(s) <==> (s.freeEnergy as real) / (s.capacity as real) > 0.5
  {
    var f, c := s.freeEnergy as real, s.capacity as real;
    var r := f / c;
    assert f == r * c;
    assert MostlyEmpty(s) <==> 2.0 * f > c;
    assert 2.0 * f - c == 2.0 * ((r - 0.5) * c);
    if r > 0.5 {
      ProductSign(r - 0.5, c);
    } else {
      ProductSign(0.5 - r, c);
      assert (0.5 - r) * c == -((r - 0.5) * c);
    }
  }

  lemma ProductSign(a: real, b: real)
    requires a >= 0.0 && b > 0.0
    ensures a > 0.0 ==> a * b > 0.0
    ensures a * b >= 0.0
  {
  }

  /** `switchGoals`: the goal after the capacity check. */
  function SwitchGoal(goal: Option<string>, v: HarvesterView): Option<string>
  {
    if v.used == 0 then Some("harvest")
    else if v.free == 0 then
      (if |v.spawns| == 0 then goal
       else if MostlyEmpty(v.spawns[0]) then Some("refuel")
       else Some("upgrade"))
    else goal
  }

  /** `runHarvest`: harvest the room's first source, if there is one. */
  function HarvestAction(v: HarvesterView): seq<CreepCommand>
  {
    if |v.sources| == 0 then [] else Attempt(Harvest, Obj(v.sources[0]), v.result)
  }

  /** `runUpgrade`: upgrade the room controller, if there is one. */
  function UpgradeAction(v: HarvesterView): seq<CreepCommand>
  {
    if v.controller.None? then [] else Attempt(UpgradeController, Obj(v.controller.value), v.result)
  }

  /** `runRefuel`: transfer energy to the room's first spawn, if there is one. */
  function RefuelAction(v: HarvesterView): seq<CreepCommand>
  {
    if |v.spawns| == 0 then [] else Attempt(Transfer, Obj(v.spawns[0].id), v.result)
  }

  /** The `switch` in `run`: the branch the goal names, and none for any other goal. */
  function Action(goal: Option<string>, v: HarvesterView): seq<CreepCommand>
  {
    if goal == Some("harvest") then HarvestAction(v)
    else if goal == Some("upgrade") then UpgradeAction(v)
    else if goal == Some("refuel") then RefuelAction(v)
    else []
  }

  /** An empty store means `harvest`, checked before (and so winning over) the full check. */
  lemma EmptyMeansHarvest(goal: Option<string>, v: HarvesterView)
    requires v.used == 0
    ensures SwitchGoal(goal, v) == Some("harvest")
  {
  }

  /** Full with a spawn: `refuel` exactly when more than half the spawn's store is free,
      `upgrade` otherwise. Full without a spawn, or partly loaded: the goal stays. */
  lemma FullGoal(goal: Option<string>, v: HarvesterView)
    requires v.used > 0
    ensures v.free == 0 && |v.spawns| > 0 ==>
      (SwitchGoal(goal, v) == Some("refuel") <==> 2 * v.spawns[0].freeEnergy > v.spawns[0].capacity) &&
      (SwitchGoal(goal, v) == Some("upgrade") <==> 2 * v.spawns[0].freeEnergy <= v.spawns[0].capacity)
    ensures v.free == 0 && |v.spawns| == 0 ==> SwitchGoal(goal, v) == goal
    ensures v.free > 0 ==> SwitchGoal(goal, v) == goal
  {
  }

  /** Whatever the goal, the action step never suicides; it does nothing exactly when the
      goal names no branch or the branch's target is missing, and otherwise attempts one
      action and moves to its target exactly when the host answered `ERR_NOT_IN_RANGE`. */
  lemma ActionShape(goal: Option<string>, v: HarvesterView)
    ensures Suicide !in Action(goal, v)
    ensures Action(goal, v) == [] <==>
      (goal == Some("harvest") && |v.sources| == 0) ||
      (goal == Some("upgrade") && v.controller.None?) ||
      (goal == Some("refuel") && |v.spawns| == 0) ||
      (goal != Some("harvest") && goal != Some("upgrade") && goal != Some("refuel"))
    ensures var cs := Action(goal, v);
      cs != [] ==> cs[0].Act? && (|cs| == 2 <==> v.result == ERR_NOT_IN_RANGE) &&
                   (|cs| == 2 ==> cs[1] == MoveTo(cs[0].target))
  {
  }

  /** `Harvester.run`: switch goals in place, then run the branch of the new goal. */
  method Run(store: MemoryStore, name: string, v: HarvesterView) returns (cmds: seq<CreepCommand>)
    requires name in store.creeps && IsA(store.creeps[name])
    modifies store`creeps
    ensures store.creeps == old(store.creeps)[name := old(store.creeps[name]).(goal := SwitchGoal(old(store.creeps[name]).goal, v))]
    ensures cmds == Action(store.creeps[name].goal, v)
  {
    SwitchGoals(store, name, v);
    var goal := store.creeps[name].goal;
    if goal == Some("harvest") {
      cmds := HarvestAction(v);
    } else if goal == Some("upgrade") {
      cmds := UpgradeAction(v);
    } else if goal == Some("refuel") {
      cmds := RefuelAction(v);
    } else {
      cmds := [];
    }
  }

  /** `switchGoals`: assigns the goal in the persisted record. */
  method SwitchGoals(store: MemoryStore, name: string, v: HarvesterView)
    requires name in store.creeps
    modifies store`creeps
    ensures store.creeps == old(store.creeps)[name := old(store.creeps[name]).(goal := SwitchGoal(old(store.creeps[name]).goal, v))]
  {
    if v.used == 0 {
      store.creeps := store.creeps[name := store.creeps[name].(goal := Some("harvest"))];
    } else if v.free == 0 {
      if |v.spawns| == 0 {
        return;
      }
      var goal := if MostlyEmpty(v.spawns[0]) then Some("refuel") else Some("upgrade");
      store.creeps := store.creeps[name := store.creeps[name].(goal := goal)];
    }
  }
}
