/** The room coordinator (`ScreepyRoom`): each pass counts the ghouls on each line while
    running every ghoul once, then makes at most one spawn request with a fixed priority
    (harvesters first, then upgraders), naming the new creep from a per-spawner counter
    that advances only when the spawn is accepted. */
module Room {
  import opened Host
  import Abstract
  import Ghoul

  const MaxHarvestersPerSpawner: nat := 3
  const MaxUpgradersPerSpawner: nat := 2
  const GhoulBody: seq<BodyPart> := [Work, Carry, Move]
  const GhoulPrefix := "Ghoul"

  /** One entry of `Game.creeps`: the creep's name (its key), its id and what it sees. */
  datatype CreepEntry = CreepEntry(name: string, id: string, view: Ghoul.CreepView)

  /** The spawner `getDefaultSpawner` picked, and whether it is busy spawning. */
  datatype Spawner = Spawner(name: string, spawning: bool)

  /** The room being coordinated: its name, the ids of its sources and its controller. */
  datatype RoomView = RoomView(name: string, sources: seq<string>, controller: Option<string>)

  /** `Game.creeps` is keyed by name, so no two entries share one. */
  ghost predicate DistinctNames(census: seq<CreepEntry>)
  {
    forall i, j :: 0 <= i < j < |census| ==> census[i].name != census[j].name
  }

  // ---------------------------------------------------------------------------
  // Construction

  /** The role tag persisted for a room: `Memory.rooms[name].role`, `undefined` without a record. */
  function RoomRole(rooms: map<string, RoomMemory>, name: string): Option<string>
  {
    if name in rooms then rooms[name].role else None
  }

  /** `new ScreepyRoom(room)`: the wrapper constructor with the expected role `undefined`. */
  function Construct(rooms: map<string, RoomMemory>, name: string): Result<Abstract.Handle>
  {
    Abstract.Construct(Abstract.RoomText(name), name, RoomRole(rooms, name), None)
  }

  /** A room can be wrapped exactly when its memory carries no role. */
  lemma ConstructIffNoRole(rooms: map<string, RoomMemory>, name: string)
    ensures Construct(rooms, name).Ok? <==> RoomRole(rooms, name).None?
    ensures name !in rooms ==> Construct(rooms, name).Ok?
  {
  }

  // ---------------------------------------------------------------------------
  // Census

  /** The ghouls of `census` on the harvest line, judged by the records in `creeps`. */
  function CountHarvesting(census: seq<CreepEntry>, creeps: map<string, CreepMemory>): nat
  {
    if census == [] then 0
    else
      var m := MemoryOf(creeps, census[|census| - 1].name);
      CountHarvesting(census[..|census| - 1], creeps) + if Ghoul.IsA(m) && Ghoul.IsHarvesting(m) then 1 else 0
  }

  /** The ghouls of `census` on the upgrade line. */
  function CountUpgrading(census: seq<CreepEntry>, creeps: map<string, CreepMemory>): nat
  {
    if census == [] then 0
    else
      var m := MemoryOf(creeps, census[|census| - 1].name);
      CountUpgrading(census[..|census| - 1], creeps) + if Ghoul.IsA(m) && Ghoul.IsUpgrading(m) then 1 else 0
  }

  /** The creeps of `census` whose role is `ghoul`, whichever room they are in. */
  function CountGhouls(census: seq<CreepEntry>, creeps: map<string, CreepMemory>): nat
  {
    if census == [] then 0
    else
      CountGhouls(census[..|census| - 1], creeps) + if Ghoul.IsA(MemoryOf(creeps, census[|census| - 1].name)) then 1 else 0
  }

  /** Every ghoul is counted, and counted once: the two tallies add up to the number of ghouls. */
  lemma {:induction false} CensusPartition(census: seq<CreepEntry>, creeps: map<string, CreepMemory>)
    ensures CountHarvesting(census, creeps) + CountUpgrading(census, creeps) == CountGhouls(census, creeps)
  {
    if census != [] {
      CensusPartition(census[..|census| - 1], creeps);
      Ghoul.ExactlyOneLine(MemoryOf(creeps, census[|census| - 1].name));
    }
  }

  // ---------------------------------------------------------------------------
  // Running the ghouls

  /** The records after a sequence of ghoul steps, and the host calls made, in order. */
  datatype Pass = Pass(creeps: map<string, CreepMemory>, commands: seq<Command>)

  /** A creep's host calls, attributed to it. */
  function Tag(name: string, cs: seq<CreepCommand>): (r: seq<Command>)
    ensures |r| == |cs|
    ensures forall i :: 0 <= i < |r| ==> r[i] == Creep(name, cs[i])
  {
    if cs == [] then [] else [Creep(name, cs[0])] + Tag(name, cs[1..])
  }

  /** The `forEach` over `Game.creeps`: every creep whose record says `ghoul` takes one step. */
  function RunGhouls(creeps: map<string, CreepMemory>, census: seq<CreepEntry>): Pass
  {
    if census == [] then Pass(creeps, [])
    else
      var prev := RunGhouls(creeps, census[..|census| - 1]);
      var e := census[|census| - 1];
      var m := MemoryOf(prev.creeps, e.name);
      if Ghoul.IsA(m) then
        var r := Ghoul.Step(m, e.view);
        Pass(prev.creeps[e.name := r.memory], prev.commands + Tag(e.name, r.commands))
      else prev
  }

  /** Running the ghouls never changes a record's role or its harvest target, and never
      adds or removes a record. */
  lemma {:induction false} RunGhoulsKeepsRoleAndHarvest(creeps: map<string, CreepMemory>, census: seq<CreepEntry>, n: string)
    ensures RunGhouls(creeps, census).creeps.Keys == creeps.Keys
    ensures MemoryOf(RunGhouls(creeps, census).creeps, n).role == MemoryOf(creeps, n).role
    ensures MemoryOf(RunGhouls(creeps, census).creeps, n).harvest == MemoryOf(creeps, n).harvest
  {
    if census != [] {
      RunGhoulsKeepsRoleAndHarvest(creeps, census[..|census| - 1], n);
    }
  }

  /** A record that no ghoul entry of `census` owns is left exactly as it was. */
  lemma {:induction false} RunGhoulsLeavesOthers(creeps: map<string, CreepMemory>, census: seq<CreepEntry>, n: string)
    requires forall i :: 0 <= i < |census| && census[i].name == n ==> !Ghoul.IsA(MemoryOf(creeps, n))
    ensures MemoryOf(RunGhouls(creeps, census).creeps, n) == MemoryOf(creeps, n)
  {
    if census != [] {
      RunGhoulsLeavesOthers(creeps, census[..|census| - 1], n);
    }
  }

  /** With distinct names, every ghoul of the census ends up exactly one step further on:
      it is run once, not twice and not zero times. */
  lemma {:induction false} RunGhoulsStepsEachOnce(creeps: map<string, CreepMemory>, census: seq<CreepEntry>, k: nat)
    requires DistinctNames(census) && k < |census|
    requires Ghoul.IsA(MemoryOf(creeps, census[k].name))
    ensures var n := census[k].name;
      n in RunGhouls(creeps, census).creeps &&
      RunGhouls(creeps, census).creeps[n] == Ghoul.Step(MemoryOf(creeps, n), census[k].view).memory
  {
    var last := |census| - 1;
    var front := census[..last];
    var n := census[k].name;
    if k == last {
      RunGhoulsLeavesOthers(creeps, front, n);
    } else {
      RunGhoulsStepsEachOnce(creeps, front, k);
    }
  }

  /** The ghoul pass issues creep commands only; spawning is left to the coordinator. */
  lemma {:induction false} RunGhoulsIssuesCreepCommands(creeps: map<string, CreepMemory>, census: seq<CreepEntry>)
    ensures forall c :: c in RunGhouls(creeps, census).commands ==> c.Creep?
  {
    if census != [] {
      RunGhoulsIssuesCreepCommands(creeps, census[..|census| - 1]);
    }
  }

  // ---------------------------------------------------------------------------
  // The spawn decision

  datatype Plan = NoSpawner | Busy | SpawnHarvester | SpawnUpgrader | Idle

  /** The fixed priority of `run`: no spawner, a busy spawner, too few harvesters, too few
      upgraders, otherwise idle. */
  function Decide(harvesting: nat, upgrading: nat, spawner: Option<Spawner>): Plan
  {
    if spawner.None? then NoSpawner
    else if spawner.value.spawning then Busy
    else if harvesting < MaxHarvestersPerSpawner then SpawnHarvester
    else if upgrading < MaxUpgradersPerSpawner then SpawnUpgrader
    else Idle
  }

  /** `getNextId`: `memory.nextId || 1` (0 and `undefined` both read as 1). */
  function NextId(spawns: map<string, SpawnMemory>, spawner: string): (n: int)
    ensures n != 0
  {
    var id := if spawner in spawns then spawns[spawner].nextId else None;
    if id.Some? && id.value != 0 then id.value else 1
  }

  /** The name a spawn request uses: `Ghoul #${n}`. */
  function GhoulName(n: int): string
  {
    Label(GhoulPrefix, IntToString(n))
  }

  /** The record a new creep of the plan's kind is spawned with, if the room has what
      that kind needs: a source for a harvester, a controller for an upgrader. */
  function InitialMemory(plan: Plan, room: RoomView): Option<CreepMemory>
  {
    match plan
    case SpawnHarvester =>
      if |room.sources| > 0 then Some(CreepMemory(Some(Ghoul.GhoulRole), Some(room.sources[0]), None)) else None
    case SpawnUpgrader =>
      if room.controller.Some? then Some(CreepMemory(Some(Ghoul.GhoulRole), None, Some("withdraw"))) else None
    case _ => None
  }

  /** The spawn requests made and the spawner records afterwards. */
  datatype SpawnOutcome = SpawnOutcome(requests: seq<Command>, spawns: map<string, SpawnMemory>)

  /** `createHarvestingGhoul` / `createUpgradingGhoul` for the plan: request a creep named
      after the spawner's counter and advance the counter only if the host answered `OK`. */
  function Spawn(plan: Plan, room: RoomView, spawner: Option<Spawner>, spawns: map<string, SpawnMemory>, result: int): SpawnOutcome
  {
    var mem := InitialMemory(plan, room);
    if mem.None? || spawner.None? then SpawnOutcome([], spawns)
    else
      var s := spawner.value.name;
      var n := NextId(spawns, s);
      SpawnOutcome([SpawnCreep(s, GhoulBody, GhoulName(n), mem.value)],
                   if result == OK then spawns[s := SpawnMemory(Some(n + 1))] else spawns)
  }

  /** No spawn request without a spawner or while it is spawning. */
  lemma NoRequestWithoutFreeSpawner(h: nat, u: nat, room: RoomView, spawner: Option<Spawner>, spawns: map<string, SpawnMemory>, result: int)
    requires spawner.None? || spawner.value.spawning
    ensures Spawn(Decide(h, u, spawner), room, spawner, spawns, result) == SpawnOutcome([], spawns)
  {
  }

  /** With a free spawner: a harvester is wanted exactly when fewer than 3 harvest, an
      upgrader exactly when at least 3 harvest and fewer than 2 upgrade, and nothing otherwise. */
  lemma SpawnPriority(h: nat, u: nat, spawner: Option<Spawner>)
    requires spawner.Some? && !spawner.value.spawning
    ensures Decide(h, u, spawner) == SpawnHarvester <==> h < 3
    ensures Decide(h, u, spawner) == SpawnUpgrader <==> h >= 3 && u < 2
    ensures Decide(h, u, spawner) == Idle <==> h >= 3 && u >= 2
  {
  }

  /** A harvester is requested exactly when the room has a source; it is a ghoul on the
      harvest line bound to the room's first source (on that line exactly when the id is a
      non-empty string), named `Ghoul #n` with `n = nextId || 1`. */
  lemma HarvesterRequest(room: RoomView, s: Spawner, spawns: map<string, SpawnMemory>, result: int)
    ensures var o := Spawn(SpawnHarvester, room, Some(s), spawns, result);
      (|o.requests| == 1 <==> |room.sources| > 0) && (|room.sources| == 0 ==> o.requests == [])
    ensures |room.sources| > 0 ==>
      var r := Spawn(SpawnHarvester, room, Some(s), spawns, result).requests[0];
      r == SpawnCreep(s.name, GhoulBody, GhoulName(NextId(spawns, s.name)),
                      CreepMemory(Some("ghoul"), Some(room.sources[0]), None)) &&
      Ghoul.IsA(r.memory) && (Ghoul.IsHarvesting(r.memory) <==> room.sources[0] != "")
  {
  }

  /** An upgrader is requested exactly when the room has a controller; it is a ghoul on the
      upgrade line whose goal starts as `withdraw`. */
  lemma UpgraderRequest(room: RoomView, s: Spawner, spawns: map<string, SpawnMemory>, result: int)
    ensures var o := Spawn(SpawnUpgrader, room, Some(s), spawns, result);
      (|o.requests| == 1 <==> room.controller.Some?) && (room.controller.None? ==> o.requests == [])
    ensures room.controller.Some? ==>
      var r := Spawn(SpawnUpgrader, room, Some(s), spawns, result).requests[0];
      r == SpawnCreep(s.name, GhoulBody, GhoulName(NextId(spawns, s.name)),
                      CreepMemory(Some("ghoul"), None, Some("withdraw"))) &&
      Ghoul.IsA(r.memory) && Ghoul.IsUpgrading(r.memory)
  {
  }

  /** At most one request; the spawner's counter becomes `n + 1` exactly when a request was
      made and the host answered `OK`, and every record is otherwise unchanged. */
  lemma CounterAdvancesOnlyOnOk(plan: Plan, room: RoomView, spawner: Option<Spawner>, spawns: map<string, SpawnMemory>, result: int)
    ensures var o := Spawn(plan, room, spawner, spawns, result);
      |o.requests| <= 1 &&
      (o.spawns != spawns ==> |o.requests| == 1 && result == OK) &&
      (|o.requests| == 1 && result == OK ==>
         o.spawns == spawns[spawner.value.name := SpawnMemory(Some(NextId(spawns, spawner.value.name) + 1))])
    ensures var o := Spawn(plan, room, spawner, spawns, result);
      forall r :: r in o.requests ==> r.SpawnCreep? && r.name == GhoulName(NextId(spawns, r.spawner))
  {
  }

  /** Different counter values name different creeps. */
  lemma GhoulNameInjective(a: int, b: int)
    requires GhoulName(a) == GhoulName(b)
    ensures a == b
  {
    assert IntToString(a) == GhoulName(a)[|GhoulPrefix| + 2..] == IntToString(b);
    IntToStringInjective(a, b);
  }

  /** After an accepted spawn the spawner's next name differs from the one just used,
      whatever the stored counter was. The counter goes up by exactly one, except from -1:
      it then becomes 0, which `nextId || 1` reads back as 1. */
  lemma AcceptedSpawnsGetFreshNames(room: RoomView, s: Spawner, spawns: map<string, SpawnMemory>, plan: Plan)
    requires |Spawn(plan, room, Some(s), spawns, OK).requests| == 1
    ensures var mid := Spawn(plan, room, Some(s), spawns, OK).spawns;
      GhoulName(NextId(mid, s.name)) != GhoulName(NextId(spawns, s.name))
    ensures var mid := Spawn(plan, room, Some(s), spawns, OK).spawns;
      NextId(spawns, s.name) != -1 ==> NextId(mid, s.name) == NextId(spawns, s.name) + 1
    ensures var mid := Spawn(plan, room, Some(s), spawns, OK).spawns;
      NextId(spawns, s.name) == -1 ==> NextId(mid, s.name) == 1
  {
    var n := NextId(spawns, s.name);
    var mid := Spawn(plan, room, Some(s), spawns, OK).spawns;
    assert mid == spawns[s.name := SpawnMemory(Some(n + 1))];
    if GhoulName(NextId(mid, s.name)) == GhoulName(n) {
      GhoulNameInjective(NextId(mid, s.name), n);
    }
  }

  // ---------------------------------------------------------------------------
  // A whole pass

  /** The records and host calls after one `run` of the room. */
  datatype RoomPass = RoomPass(creeps: map<string, CreepMemory>, spawns: map<string, SpawnMemory>, commands: seq<Command>)

  /** `ScreepyRoom.run` as a value: the ghoul pass, then the spawn decision on the census. */
  function RunRoom(creeps: map<string, CreepMemory>, spawns: map<string, SpawnMemory>, room: RoomView,
                   census: seq<CreepEntry>, spawner: Option<Spawner>, result: int): RoomPass
  {
    var p := RunGhouls(creeps, census);
    var plan := Decide(CountHarvesting(census, creeps), CountUpgrading(census, creeps), spawner);
    var o := Spawn(plan, room, spawner, spawns, result);
    RoomPass(p.creeps, o.spawns, p.commands + o.requests)
  }

  /** One `run` makes at most one spawn request, after every ghoul has acted: every command
      but the last is a creep's. Without a free spawner there is no request at all. */
  lemma {:induction false} AtMostOneSpawnPerRun(creeps: map<string, CreepMemory>, spawns: map<string, SpawnMemory>, room: RoomView,
                                                census: seq<CreepEntry>, spawner: Option<Spawner>, result: int)
    ensures var cs := RunRoom(creeps, spawns, room, census, spawner, result).commands;
      forall i :: 0 <= i < |cs| - 1 ==> cs[i].Creep?
    ensures var cs := RunRoom(creeps, spawns, room, census, spawner, result).commands;
      (spawner.None? || spawner.value.spawning) ==> forall c :: c in cs ==> c.Creep?
  {
    var p := RunGhouls(creeps, census);
    var plan := Decide(CountHarvesting(census, creeps), CountUpgrading(census, creeps), spawner);
    var o := Spawn(plan, room, spawner, spawns, result);
    var cs := p.commands + o.requests;
    RunGhoulsIssuesCreepCommands(creeps, census);
    CounterAdvancesOnlyOnOk(plan, room, spawner, spawns, result);
    forall i | 0 <= i < |cs| - 1
      ensures cs[i].Creep?
    {
      assert cs[i] == p.commands[i];
      assert p.commands[i] in p.commands;
    }
  }

  // ---------------------------------------------------------------------------
  // The pass as it runs, against the persisted records

  /** `ScreepyRoom.run`. */
  method Run(store: MemoryStore, room: RoomView, census: seq<CreepEntry>, spawner: Option<Spawner>, result: int)
    returns (cmds: seq<Command>)
    modifies store`creeps, store`spawns
    ensures var p := RunRoom(old(store.creeps), old(store.spawns), room, census, spawner, result);
      store.creeps == p.creeps && store.spawns == p.spawns && cmds == p.commands
  {
    ghost var creeps0 := store.creeps;
    var harvesting, upgrading := 0, 0;
    cmds := [];
    var i := 0;
    while i < |census|
      invariant 0 <= i <= |census|
      invariant store.spawns == old(store.spawns)
      invariant RunGhouls(creeps0, census[..i]) == Pass(store.creeps, cmds)
      invariant harvesting == CountHarvesting(census[..i], creeps0)
      invariant upgrading == CountUpgrading(census[..i], creeps0)
    {
      var e := census[i];
      assert census[..i + 1][..i] == census[..i];
      RunGhoulsKeepsRoleAndHarvest(creeps0, census[..i], e.name);
      var m := MemoryOf(store.creeps, e.name);
      if Ghoul.IsA(m) {
        var ghoul := Ghoul.Construct(e.id, m);
        assert ghoul.Ok?;
        if Ghoul.IsHarvesting(m) {
          harvesting := harvesting + 1;
        } else if Ghoul.IsUpgrading(m) {
          upgrading := upgrading + 1;
        }
        var out := Ghoul.Run(store, e.name, e.view);
        cmds := cmds + Tag(e.name, out);
      }
      i := i + 1;
    }
    assert census[..|census|] == census;

    if spawner.None? {
      return;
    }
    var s := spawner.value;
    if s.spawning {
      return;
    }
    var requests: seq<Command>;
    if harvesting < MaxHarvestersPerSpawner {
      requests := CreateHarvestingGhoul(store, room, s, result);
    } else if upgrading < MaxUpgradersPerSpawner {
      requests := CreateUpgradingGhoul(store, room, s, result);
    } else {
      requests := [];
    }
    cmds := cmds + requests;
  }

  /** `incrementId`: `memory.nextId = (memory.nextId || 1) + 1`. */
  method IncrementId(store: MemoryStore, spawner: string)
    modifies store`spawns
    ensures store.spawns == old(store.spawns)[spawner := SpawnMemory(Some(NextId(old(store.spawns), spawner) + 1))]
  {
    var nextId := NextId(store.spawns, spawner);
    store.spawns := store.spawns[spawner := SpawnMemory(Some(nextId + 1))];
  }

  /** `createHarvestingGhoul`. */
  method CreateHarvestingGhoul(store: MemoryStore, room: RoomView, s: Spawner, result: int) returns (requests: seq<Command>)
    modifies store`spawns
    ensures var o := Spawn(SpawnHarvester, room, Some(s), old(store.spawns), result);
      requests == o.requests && store.spawns == o.spawns
  {
    requests := [];
    if |room.sources| > 0 {
      var harvest := room.sources[0];
      var name := GhoulName(NextId(store.spawns, s.name));
      requests := [SpawnCreep(s.name, GhoulBody, name, CreepMemory(Some(Ghoul.GhoulRole), Some(harvest), None))];
      if result == OK {
        IncrementId(store, s.name);
      }
    }
  }

  /** `createUpgradingGhoul`. */
  method CreateUpgradingGhoul(store: MemoryStore, room: RoomView, s: Spawner, result: int) returns (requests: seq<Command>)
    modifies store`spawns
    ensures var o := Spawn(SpawnUpgrader, room, Some(s), old(store.spawns), result);
      requests == o.requests && store.spawns == o.spawns
  {
    requests := [];
    if room.controller.Some? {
      var name := GhoulName(NextId(store.spawns, s.name));
      requests := [SpawnCreep(s.name, GhoulBody, name, CreepMemory(Some(Ghoul.GhoulRole), None, Some("withdraw")))];
      if result == OK {
        IncrementId(store, s.name);
      }
    }
  }
}
