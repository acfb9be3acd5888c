# screepy-paper — a Dafny model of the colony controller's decision logic

This project models the per-tick logic of the screepy-paper Screeps bot. The model covers:

- the **ghoul** worker. A creep is on the harvest line when its memory names a source, and on the upgrade line otherwise. Each tick it re-decides its `goal` from two capacity extremes. Then it issues one action, moving to the target instead when the host answers `ERR_NOT_IN_RANGE`, or it suicides when the target it needs is missing.
- the **room coordinator** (`ScreepyRoom`). It counts the ghouls on each line while running every ghoul once. It then makes at most one spawn request, with a fixed priority: no spawner, busy spawner, fewer than 3 harvesters, fewer than 2 upgraders, otherwise idle. The new creep's name comes from a per-spawner `nextId` counter, which advances only when the host accepts the spawn.
- the legacy **Harvester** goal machine (`harvest` / `upgrade` / `refuel`).
- the two **typed-wrapper** lineages. Each throws unless the stored role tag equals the expected tag.
- the **unique-name probe** `UUIDGenerator.next`.
- the tick entry point **`loop`**. It garbage-collects the persisted records of creeps that no longer exist, then runs every room.

How the modules are organised:

- The host's `Memory` global is the class `Host.MemoryStore`. Its record maps are updated in place by the methods that model the source's in-place writes: `Ghoul.Run*`, `Harvester.SwitchGoals`, `Room.IncrementId`, `Room.Run` and `Scheduler.CollectGarbage`.
- Each of these methods is proved equal to a pure specification function: `Ghoul.Step`, `Harvester.SwitchGoal`, `Room.RunRoom`, `Room.Spawn`, `Scheduler.Collected` and `Scheduler.RunRooms`.
- The source's promises are then proved about those functions as lemmas.

How host data enters the model:

- Everything the host supplies is a parameter: the creeps' capacity state, the room's sources, controller and container, the spawner that `lodash.sample` picks, and the result codes of action verbs and `spawnCreep`.
- Every host call a step makes is returned as a command (`Host.CreepCommand`, `Host.Command`) in the order it is made.
- The result code of a creep's action is a field of that creep's view, so it is fixed for the tick.
- `Host.OK = 0` and `Host.ERR_NOT_IN_RANGE = -9` are the Screeps constants.
- A missing record reads as `{}`: every field is `undefined`.
- JavaScript truthiness is modelled where the code relies on it:
  - `!!memory.harvest` is false for `""` as well as for `undefined` (`Host.Truthy`);
  - `memory.nextId || 1` reads both `0` and `undefined` as 1 (`Room.NextId`).

Three behaviours of the code that the model keeps as written:

- `runUpgradeGoal` transfers to `creep.room.controller!`, with no check that a controller exists. The model keeps this and targets `undefined` when the room has no controller. It does not skip the action.
- `ScreepyRoom.run` iterates over all of `Game.creeps`, not only the creeps in its own room. Because `loop` runs every room, each ghoul therefore takes one step per room per tick, and `Scheduler.RunRooms` models exactly that.
- An upgrader is spawned with `goal: 'withdraw'`, a value outside the declared goal type. The upgrade line treats any goal other than `upgrade` as its default (withdraw) branch, so the model keeps the value as written.

## Model

| member | source | states |
|---|---|---|
| Host.Attempt | src/ghoul.ts:134-141 | Every action step tries the verb on its target first and adds a `moveTo` to that same target exactly when the host answered `ERR_NOT_IN_RANGE`; never more than one move |
| Host.NatToStringInjective | src/utils.ts:19-20 | Distinct numbers render as distinct decimal strings, so the name template never repeats a name for a new number |
| Host.NameInjective | src/utils.ts:19-20 | `${prefix} #${j}` and `${prefix} #${k}` coincide only when j = k |
| Host.IntToStringInjective | src/room.ts:123 | Distinct integers, negative ones included, render as distinct strings |
| Host.Truthy | src/ghoul.ts:70-81 | Defines JavaScript truthiness of an optional string field: set and non-empty |
| Host.MemoryOf | src/abstract.ts:27-29 | Defines `creep.memory`: the creep's record, or `{}` (every field `undefined`) when it has none; the ghoul pass leaves records no ghoul owns alone by `Room.RunGhoulsLeavesOthers` |
| Host.NatToString | src/utils.ts:19-20 | The template rendering of a natural number is non-empty and made of decimal digits |
| Host.IntToString | src/room.ts:123 | The template rendering of an integer is non-empty, starts with `-` exactly when the number is negative, and is digits after the first character; injective by `IntToStringInjective` |
| Host.Name | src/utils.ts:19-20 | Defines the probed name `${prefix} #${k}`; injective by `NameInjective`, and the result of `Utils.UuidGenerator.Next` |
| Host.RoleText | src/abstract.ts:82 | Defines how a template literal renders an optional role: the string, or `undefined` when unset; the mismatch messages contain it by `Abstract.MismatchMessageNamesBoth` and `RoleAbstract.MismatchMessageNamesAll` |
| Host.Label | src/utils.ts:19-20 | `${prefix} #${number}` starts with the prefix and ends with the number, two characters apart |
| Abstract.Construct | src/abstract.ts:16-22 | The `AbstractScreepy` constructor succeeds exactly when the memory role equals the expected role; the wrapper then carries that role; otherwise it throws the mismatch message |
| Abstract.MismatchMessage | src/abstract.ts:18-20 | Defines the error text `${this}: Expected "${role}"", got "${memory.role}"` on the rendered roles; its contents are proved by `MismatchMessageNamesBoth` |
| Abstract.MessageShowsSelf | src/abstract.ts:19 | The mismatch template contains the wrapper's rendering |
| Abstract.MessageShowsExpected | src/abstract.ts:19 | The mismatch template contains the expected role text |
| Abstract.MessageShowsActual | src/abstract.ts:19 | The mismatch template contains the found role text |
| Abstract.IsNew | src/abstract.ts:54-56 | Defines `isNew` as the memory role being `undefined`; its meaning is proved by `IsNewIffNoTaggedWrapper` |
| Abstract.RoomText | src/room.ts:158-160 | Defines the room wrapper's rendering `<Room, vertical bar, name>` used in its error message |
| Abstract.MismatchMessageNamesBoth | src/abstract.ts:18-20 | The mismatch error names the wrapper, the expected role and the role found |
| Abstract.IsNewIffNoTaggedWrapper | src/abstract.ts:54-56 | `isNew` holds exactly when the memory role is `undefined`, i.e. when no wrapper with a defined role accepts the creep |
| Abstract.CreepText | src/abstract.ts:81-83 | `toString` is the role (or `undefined`), then a vertical bar and `#`, then the id |
| Abstract.CreepTextDeterminesId | src/abstract.ts:81-83 | Under one role the rendering determines the object's id |
| RoleAbstract.RoleName | src/role.abstract.ts:3 | Defines the tag the one role of the legacy lineage is stored under, `harvest`; the only accepted tag by `OnlyHarvestAccepted` |
| RoleAbstract.Construct | src/role.abstract.ts:23-31 | The `Screepy` constructor succeeds exactly when the memory role equals `role()`, and the wrapper's role then equals the memory role; otherwise it throws the mismatch message |
| RoleAbstract.OnlyHarvestAccepted | src/role.abstract.ts:3 | Some legacy wrapper accepts a creep exactly when its role tag is `harvest` |
| RoleAbstract.MismatchMessageNamesAll | src/role.abstract.ts:25-29 | The legacy mismatch error contains the role found, the role expected and the creep's name |
| RoleAbstract.MismatchMessage | src/role.abstract.ts:25-29 | Defines the legacy error text from the found role, the expected role and the creep name; its contents are proved by `MismatchMessageNamesAll` |
| RoleAbstract.MessageShowsActual | src/role.abstract.ts:26-27 | The legacy template contains the found role text |
| RoleAbstract.MessageShowsExpected | src/role.abstract.ts:28 | The legacy template contains the expected role |
| RoleAbstract.MessageShowsCreep | src/role.abstract.ts:28 | The legacy template contains the creep's name |
| Ghoul.ExactlyOneLine | src/ghoul.ts:69-78 | `isHarvesting` and `isUpgrading` are complements: every record is on exactly one line |
| Ghoul.DefaultMemoryIsBareUpgrader | src/ghoul.ts:47-60 | `createMemory` is a ghoul on the upgrade line with no goal, and is the only ghoul record with no harvest and no goal |
| Ghoul.ConstructSucceedsIffIsA | src/ghoul.ts:47-49 | `new Ghoul(c)` succeeds exactly when `isA` holds (role `ghoul`), so wrapping after `isA` never throws |
| Ghoul.IsA | src/ghoul.ts:47-49 | Defines `isA` as the memory role being `ghoul`; tied to construction by `ConstructSucceedsIffIsA` |
| Ghoul.CreateMemory | src/ghoul.ts:56-60 | Defines the default record `{role: 'ghoul'}`; characterised by `DefaultMemoryIsBareUpgrader` |
| Ghoul.IsHarvesting | src/ghoul.ts:69-71 | Defines `isHarvesting` as `memory.harvest` being truthy; complement of `IsUpgrading` by `ExactlyOneLine` |
| Ghoul.IsUpgrading | src/ghoul.ts:76-78 | Defines `isUpgrading` as `memory.harvest` being falsy; complement of `IsHarvesting` by `ExactlyOneLine` |
| Ghoul.Construct | src/ghoul.ts:62-64 | Defines `new Ghoul(c)` as the wrapper constructor with expected role `ghoul`; proved to succeed exactly on `isA` by `ConstructSucceedsIffIsA` |
| Ghoul.NextUpgradeGoal | src/ghoul.ts:106-112 | Defines the upgrade line's goal update; its cases are proved by `UpgradeLineGoal` and `PartialLoadKeepsMemory` |
| Ghoul.NextHarvestGoal | src/ghoul.ts:171-183 | Defines the harvest line's goal update; its cases are proved by `HarvestLineFullGoal`, `HarvestLineEmptyGoal` and `PartialLoadKeepsMemory` |
| Ghoul.UpgradeLineAction | src/ghoul.ts:115-126 | Defines the upgrade line's `switch` on the goal: upgrade, or withdraw from the container, or suicide without one; proved by `SuicideExactly` and `StepShape` |
| Ghoul.HarvestLineAction | src/ghoul.ts:186-198 | Defines the harvest line's `switch`: deposit (suicide without a container), upgrade, or harvest; proved by `SuicideExactly` and `StepShape` |
| Ghoul.ControllerTarget | src/ghoul.ts:135-138 | Defines `creep.room.controller!` as a target: the controller, or `undefined` when the room has none |
| Ghoul.UpgradeGoal | src/ghoul.ts:132-143 | Defines `runUpgradeGoal`: transfer to the controller, moving on `ERR_NOT_IN_RANGE` (by `Host.Attempt`) |
| Ghoul.WithdrawGoal | src/ghoul.ts:150-160 | Defines `runWithdrawGoal`: withdraw from the container, moving on `ERR_NOT_IN_RANGE` (by `Host.Attempt`) |
| Ghoul.DepositGoal | src/ghoul.ts:201-209 | Defines `runDepositGoal`: transfer into the container, moving on `ERR_NOT_IN_RANGE` (by `Host.Attempt`) |
| Ghoul.HarvestGoal | src/ghoul.ts:211-225 | Defines `runHarvestGoal`: harvest the room source whose id is `memory.harvest`, or suicide when there is none; proved by `SuicideExactly` |
| Ghoul.Step | src/ghoul.ts:80-86 | A ghoul step rewrites the goal and nothing else of the record |
| Ghoul.RunDispatch | src/ghoul.ts:80-86 | `run` takes the harvest line exactly when `memory.harvest` is truthy, else the upgrade line; only the harvest line harvests, only the upgrade line withdraws |
| Ghoul.UpgradeLineGoal | src/ghoul.ts:106-112 | Upgrade line: full sets `upgrade` (winning over empty); otherwise empty deletes the goal; otherwise the goal stays |
| Ghoul.HarvestLineFullGoal | src/ghoul.ts:171-179 | Harvest line when full: `upgrade` exactly when a container exists with no free energy capacity, `deposit` otherwise (also with no container) |
| Ghoul.HarvestLineEmptyGoal | src/ghoul.ts:180-197 | Harvest line, empty and not full: the goal is deleted and the creep harvests its source; a partial load keeps the goal |
| Ghoul.PartialLoadKeepsMemory | src/ghoul.ts:105-112 | Hysteresis: between the two capacity extremes the record is left exactly as it was, on either line |
| Ghoul.SuicideExactly | src/ghoul.ts:115-220 | A ghoul suicides exactly when depositing with no container, withdrawing with no container, or remembering a source the room does not have; it then attempts no action |
| Ghoul.StepShape | src/ghoul.ts:132-224 | Every step is a lone suicide or one action followed by a move to the same target exactly when the host answered `ERR_NOT_IN_RANGE`; never two moves |
| Ghoul.Run | src/ghoul.ts:80-86 | Running a ghoul rewrites its record in place to the step's new record, changes no other record, and issues the step's commands |
| Ghoul.RunUpgrade | src/ghoul.ts:102-127 | `runUpgrade` writes the upgrade line's next goal into the record, then issues the action for that goal |
| Ghoul.RunHarvest | src/ghoul.ts:165-199 | `runHarvest` writes the harvest line's next goal into the record, then issues the action for that goal |
| Harvester.ConstructIffIsA | src/role.harvest.ts:8-23 | `new Harvester(c)` succeeds exactly when `isA` holds; `defaultMemory` passes `isA` and has goal `harvest` |
| Harvester.IsA | src/role.harvest.ts:13-15 | Defines `isA` as the memory role being `harvest`; tied to construction by `ConstructIffIsA` |
| Harvester.DefaultMemory | src/role.harvest.ts:8-11 | Defines `defaultMemory` as `{goal: 'harvest', role: 'harvest'}`; proved to pass `isA` by `ConstructIffIsA` |
| Harvester.Text | src/role.harvest.ts:114-116 | Defines `toString` as `<name#id>`, the rendering used in the legacy error message |
| Harvester.Construct | src/role.harvest.ts:17-23 | Defines `new Harvester(c)` as the legacy constructor with `role()` = `harvest` |
| Harvester.MostlyEmpty | src/role.harvest.ts:67-71 | Defines the spawn-emptiness test as `2*free > capacity`; equal to the ratio test by `MostlyEmptyIsRatioAboveHalf` |
| Harvester.SwitchGoal | src/role.harvest.ts:55-73 | Defines `switchGoals`' new goal; its cases are proved by `EmptyMeansHarvest` and `FullGoal` |
| Harvester.Action | src/role.harvest.ts:27-37 | Defines the `switch` in `run`: the branch the goal names, none for any other goal; proved by `ActionShape` |
| Harvester.HarvestAction | src/role.harvest.ts:75-85 | Defines `runHarvest`: harvest the first source, or nothing without one |
| Harvester.UpgradeAction | src/role.harvest.ts:87-98 | Defines `runUpgrade`: upgrade the controller, or nothing without one |
| Harvester.RefuelAction | src/role.harvest.ts:100-112 | Defines `runRefuel`: transfer to the first spawn, or nothing without one |
| Harvester.MostlyEmptyIsRatioAboveHalf | src/role.harvest.ts:67-71 | For a spawn with capacity, `2*free > capacity` is the same test as `free / capacity > 0.5` |
| Harvester.EmptyMeansHarvest | src/role.harvest.ts:57-58 | With no energy the goal becomes `harvest`, whatever it was and whether or not the creep also reads as full |
| Harvester.FullGoal | src/role.harvest.ts:59-72 | Full with a spawn: `refuel` exactly when more than half its store is free, `upgrade` otherwise; full without a spawn, or partly loaded, keeps the goal |
| Harvester.ActionShape | src/role.harvest.ts:75-112 | The action step never suicides; it does nothing exactly when the goal names no branch or the branch's target is missing, else acts and moves exactly on `ERR_NOT_IN_RANGE` |
| Harvester.Run | src/role.harvest.ts:25-37 | `run` switches goals in place and then runs exactly the branch the new goal names |
| Harvester.SwitchGoals | src/role.harvest.ts:55-73 | `switchGoals` writes the new goal into the creep's record and changes nothing else |
| Room.ConstructIffNoRole | src/room.ts:51-53 | A room can be wrapped exactly when its memory carries no role, in particular when it has no record |
| Room.RoomRole | src/room.ts:51-53 | Defines the room's stored role, `undefined` without a record |
| Room.Construct | src/room.ts:51-53 | Defines `new ScreepyRoom(room)` as the wrapper constructor with expected role `undefined`; proved by `ConstructIffNoRole` |
| Room.CountHarvesting | src/room.ts:57-66 | Defines the `harvesting` tally of the census; summed with `CountUpgrading` by `CensusPartition` |
| Room.CountUpgrading | src/room.ts:57-66 | Defines the `upgrading` tally of the census; summed with `CountHarvesting` by `CensusPartition` |
| Room.CountGhouls | src/room.ts:59-60 | Defines the number of census creeps whose role is `ghoul` |
| Room.RunGhouls | src/room.ts:59-69 | Defines the ghoul pass: each ghoul of the census takes one step in order; proved by the four `RunGhouls*` lemmas |
| Room.Decide | src/room.ts:72-101 | Defines the spawn decision's priority; proved by `SpawnPriority` and `NoRequestWithoutFreeSpawner` |
| Room.GhoulName | src/room.ts:123 | Defines the spawned name `Ghoul #${n}`; injective by `GhoulNameInjective` |
| Room.InitialMemory | src/room.ts:120-156 | Defines the record a new harvester or upgrader is spawned with, when the room has its target |
| Room.Spawn | src/room.ts:120-156 | Defines the spawn request and counter update; proved by `HarvesterRequest`, `UpgraderRequest` and `CounterAdvancesOnlyOnOk` |
| Room.RunRoom | src/room.ts:55-102 | Defines one room `run` as the ghoul pass then the spawn decision; proved by `AtMostOneSpawnPerRun` and implemented by `Run` |
| Room.CensusPartition | src/room.ts:57-69 | The harvesting and upgrading tallies add up to the number of creeps whose role is `ghoul` |
| Room.RunGhoulsKeepsRoleAndHarvest | src/room.ts:59-69 | The ghoul pass adds and removes no record and never changes a role or a harvest target |
| Room.RunGhoulsLeavesOthers | src/room.ts:59-69 | A record that is not a ghoul's is left unchanged by the ghoul pass |
| Room.RunGhoulsStepsEachOnce | src/room.ts:59-69 | Each ghoul is run once: its record ends exactly one step further on |
| Room.RunGhoulsIssuesCreepCommands | src/room.ts:59-69 | The ghoul pass issues creep commands only |
| Room.NextId | src/room.ts:108-112 | `getNextId` is the stored `nextId` when it is set and non-zero, and 1 otherwise; never 0 |
| Room.NoRequestWithoutFreeSpawner | src/room.ts:72-88 | No spawn request, and no counter change, without a spawner or while it is spawning |
| Room.SpawnPriority | src/room.ts:46-101 | With a free spawner: a harvester exactly when fewer than 3 harvest, an upgrader exactly when at least 3 harvest and fewer than 2 upgrade, otherwise idle |
| Room.HarvesterRequest | src/room.ts:120-137 | A harvester is requested exactly when the room has a source: body `[WORK, CARRY, MOVE]`, name `Ghoul #n`, memory `{role: 'ghoul', harvest: <first source>}` |
| Room.UpgraderRequest | src/room.ts:139-156 | An upgrader is requested exactly when the room has a controller, with memory `{role: 'ghoul', goal: 'withdraw'}`, on the upgrade line |
| Room.CounterAdvancesOnlyOnOk | src/room.ts:108-133 | At most one request per decision; the spawner's `nextId` becomes `n + 1` exactly when a request was made and the host answered `OK`; every request is named from the counter |
| Room.AcceptedSpawnsGetFreshNames | src/room.ts:108-133 | After an accepted spawn the next name differs from the one just used, for every stored counter; the counter goes up by one, except that -1 becomes 0 and reads back as 1 |
| Room.GhoulNameInjective | src/room.ts:123 | `Ghoul #${n}` determines n |
| Room.AtMostOneSpawnPerRun | src/room.ts:55-102 | One `run` makes at most one spawn request, after every ghoul has acted, and none without a free spawner |
| Room.Run | src/room.ts:55-102 | `run` updates the creep and spawner records in place and issues the commands exactly as the pass function describes |
| Room.IncrementId | src/room.ts:114-118 | `incrementId` sets the spawner's `nextId` to one more than `getNextId` would return and leaves every other record alone |
| Room.CreateHarvestingGhoul | src/room.ts:120-137 | `createHarvestingGhoul` makes the harvester request and advances the counter only on `OK` |
| Room.CreateUpgradingGhoul | src/room.ts:139-156 | `createUpgradingGhoul` makes the upgrader request and advances the counter only on `OK` |
| Utils.UuidGenerator.constructor | src/utils.ts:10 | The generator probes the given creep names |
| Utils.UuidGenerator.Next | src/utils.ts:17-21 | `next(p)` returns `p #k` for the least k ≥ 1 that is not a creep name: the name is free, every smaller number's name is taken, and k ≤ number of creeps + 1 |
| Scheduler.EscapedLength | src/main.ts:12 | Each character adds between 1 and 6 UTF-16 units to `JSON.stringify` output |
| Scheduler.EscapedBody | src/main.ts:12 | Defines the escaped length of a name's characters |
| Scheduler.JsonLength | src/main.ts:12 | Defines `JSON.stringify(c).length` as the two quotes plus the escaped characters; bounded by `JsonLengthBounds` |
| Scheduler.Plain | src/main.ts:12 | Defines a character that `JSON.stringify` writes as itself |
| Scheduler.JsonLengthBounds | src/main.ts:12 | The logged size is at least the name plus its two quotes and at most 6 units per character, and exactly the name plus two when nothing needs escaping |
| Scheduler.Collected | src/main.ts:5-7 | After GC the records are exactly those of live creeps, with their values unchanged |
| Scheduler.GcIdempotent | src/main.ts:5-15 | A second GC against the same creeps deletes nothing |
| Scheduler.CollectGarbage | src/main.ts:5-15 | The GC pass deletes exactly the records of missing creeps, in place, and logs each deleted name once with its JSON-quoted length |
| Scheduler.RunRoomsRunsUntilFirstTagged | src/main.ts:18 | Rooms run in order, once each, until one whose memory carries a role; that one throws and ends the tick; every room runs exactly when none carries a role |
| Scheduler.RunRoomsStopsAfterFailure | src/main.ts:18 | Once a room has thrown, the later rooms change nothing |
| Scheduler.RunRooms | src/main.ts:18 | Defines the `forEach` over `Game.rooms`, stopping at a throwing constructor; proved by `RunRoomsRunsUntilFirstTagged` and `RunRoomsStopsAfterFailure` |
| Scheduler.Names | src/main.ts:6 | Defines the live creep names, the keys of `Game.creeps` |
| Scheduler.Tick | src/main.ts:3-19 | `loop` collects garbage against the live creeps, logging each deleted name once with its JSON-quoted length, then runs every room on the collected records |
| Scheduler.RunEveryRoom | src/main.ts:18 | The `forEach` over `Game.rooms` updates the records and issues the commands that the room-pass function describes, stopping at a throwing constructor |

## Left out

- Rendering and diagnostics are not modelled: `visual.text`, `creep.say`, `label`, `visualizePathStyle`, `console.log` and `log`. They produce no host state the logic reads. The GC line is kept only as its name and size.
- `Ghoul.assign`, `ScreepyRoom.assign` and `ScreepyRoom.isA` (which is always true) are not modelled. No code on the path from `loop` calls them.
- Harvester.Run: the visual text after the action branch is not modelled. That includes `memory.goal.toUpperCase()`, which would throw for a record whose goal is unset after a no-spawn `switchGoals`.
- The host effects of `harvest`, `transfer`, `withdraw`, `upgradeController`, `moveTo`, `suicide` and `spawnCreep` are not modelled. They are foreign calls: each result code is an input, and each call is an emitted command.
- `lodash.sample` in `getDefaultSpawner` is not modelled. It is random, so the chosen spawner (or none) is an input.
- The bodies of `hasFullCapacity`, `hasEmptyCapacity` and `findContainerWithCapacity` are not part of this model. They are two capacity booleans and an optional container in the creep's view.
- Floating point is not modelled. `free / capacity > 0.5` is the integer test `2*free > capacity`, and `Harvester.MostlyEmptyIsRatioAboveHalf` proves the two equal on reals when capacity > 0. With capacity 0 the integer test gives the same answer JavaScript's `Infinity`/`NaN` comparison gives.
- Writing `creep.memory` does not create a record for a creep that has none. Such a creep reads as `{}` and is never a ghoul, so no step writes to it.
- Within one tick each creep's action result is fixed, even when the creep is run once per room. Host state that changes during the tick is not modelled.
- Scheduler.JsonLengthBounds: names are sequences of Unicode scalar values, so lone surrogates (which `JSON.stringify` escapes as 6 units) cannot occur.
- The memory fields are modelled as optional strings only. Non-string role, harvest or goal values are not representable.
- The bundling and upload scripts `tool/build.js` and `tool/watch.ts` are not modelled. They are file-system and network I/O with no decision logic.
- Utils.UuidGenerator.Next: `game.creeps` is modelled by its key set. The generator never reads the values.
- Numbers are modelled as unbounded integers, not IEEE doubles. In the source, `nextId` and `attempt` are doubles: past 2^53 the step `(memory.nextId || 1) + 1` stops changing the value, and from 10^21 up `${n}` switches to exponent form. So `Room.AcceptedSpawnsGetFreshNames` and `Utils.UuidGenerator.Next` hold only below those sizes.
- Scheduler.Collected: the `in` test of the GC pass is modelled as own-key membership. In JavaScript, `c in Game.creeps` on a plain object also matches keys inherited from `Object.prototype` (`constructor`, `toString`, ...), and a record stored under such a key is never deleted. The model deletes it.
