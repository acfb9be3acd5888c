/** The per-tick entry point (`loop`): drop the persisted record of every creep that no
    longer exists, logging the size of its JSON-quoted name, then run the coordinator of
    every room in `Game.rooms`. */
module Scheduler {
  import opened Host
  import Room

  // ---------------------------------------------------------------------------
  // The size the GC line reports

  /** UTF-16 length of a character's escaped form inside `JSON.stringify` output. */
  function EscapedLength(c: char): (n: nat)
    ensures 1 <= n <= 6
  {
    var k := c as int;
    if c == '"' || c == '\\' then 2
    else if k == 8 || k == 9 || k == 10 || k == 12 || k == 13 then 2
    else if k < 0x20 then 6
    else if k >= 0x1_0000 then 2
    else 1
  }

  function EscapedBody(s: string): nat
  {
    if s == [] then 0 else EscapedLength(s[0]) + EscapedBody(s[1..])
  }

  /** `JSON.stringify(c).length`: the quotes plus every character's escaped form. */
  function JsonLength(s: string): nat
  {
    2 + EscapedBody(s)
  }

  /** A character JSON writes as itself, in one UTF-16 unit. */
  predicate Plain(c: char)
  {
    EscapedLength(c) == 1
  }

  /** The reported size is at least the name plus its two quotes and at most six units per
      character; it is exactly the name plus two when no character needs escaping. */
  lemma {:induction false} JsonLengthBounds(s: string)
    ensures |s| + 2 <= JsonLength(s) <= 6 * |s| + 2
    ensures JsonLength(s) == |s| + 2 <==> forall i :: 0 <= i < |s| ==> Plain(s[i])
  {
    if s != [] {
      JsonLengthBounds(s[1..]);
      if forall i :: 0 <= i < |s| ==> Plain(s[i]) {
        assert forall i :: 0 <= i < |s[1..]| ==> Plain(s[1..][i]) by {
          forall i | 0 <= i < |s[1..]| ensures Plain(s[1..][i]) { assert s[1..][i] == s[i + 1]; }
        }
      } else if Plain(s[0]) {
        var i :| 0 <= i < |s| && !Plain(s[i]);
        assert i > 0 && s[1..][i - 1] == s[i];
      }
    }
  }

  // ---------------------------------------------------------------------------
  // Garbage collection

  /** One GC line: the freed name and the size reported for it. */
  datatype Freed = Freed(name: string, bytes: nat)

  /** The records that survive GC: those whose creep is still alive. */
  function Collected(creeps: map<string, CreepMemory>, live: set<string>): (r: map<string, CreepMemory>)
    ensures r.Keys == creeps.Keys * live
    ensures forall k :: k in r ==> r[k] == creeps[k]
  {
    map k | k in creeps && k in live :: creeps[k]
  }

  /** A second collection against the same live creeps has nothing left to free. */
  lemma GcIdempotent(creeps: map<string, CreepMemory>, live: set<string>)
    ensures Collected(Collected(creeps, live), live) == Collected(creeps, live)
    ensures Collected(creeps, live).Keys - live == {}
  {
  }

  /** The garbage-collection pass of `loop`, over a snapshot of the record keys: each dead
      creep's record is deleted and one line logged for it. */
  method CollectGarbage(store: MemoryStore, live: set<string>) returns (log: seq<Freed>)
    modifies store`creeps
    ensures store.creeps == Collected(old(store.creeps), live)
    ensures (set e | e in log :: e.name) == old(store.creeps).Keys - live
    ensures forall i, j :: 0 <= i < j < |log| ==> log[i].name != log[j].name
    ensures forall e :: e in log ==> e.bytes == JsonLength(e.name)
  {
    ghost var before := store.creeps;
    var keys := store.creeps.Keys;
    log := [];
    while keys != {}
      invariant keys <= before.Keys
      invariant store.creeps == map k | k in before && (k in keys || k in live) :: before[k]
      invariant (set e | e in log :: e.name) == (before.Keys - keys) - live
      invariant forall i, j :: 0 <= i < j < |log| ==> log[i].name != log[j].name
      invariant forall e :: e in log ==> e.bytes == JsonLength(e.name) && e.name !in keys
      decreases keys
    {
      var c :| c in keys;
      if c !in live {
        store.creeps := store.creeps - {c};
        ghost var names := set e | e in log :: e.name;
        log := log + [Freed(c, JsonLength(c))];
        assert (set e | e in log :: e.name) == names + {c};
      }
      keys := keys - {c};
    }
  }

  // ---------------------------------------------------------------------------
  // The room pass

  /** One entry of `Game.rooms`, with the spawner `getDefaultSpawner` samples for it and the
      code the host answers to its spawn request. */
  datatype RoomEntry = RoomEntry(room: Room.RoomView, spawner: Option<Room.Spawner>, spawnResult: int)

  /** The records and host calls after the room pass; `ran` counts the rooms run, and
      `failure` is the message of a constructor that threw, which ends the tick. */
  datatype TickOutcome = TickOutcome(creeps: map<string, CreepMemory>, spawns: map<string, SpawnMemory>,
                                     commands: seq<Command>, ran: nat, failure: Option<string>)

  /** The `forEach` over `Game.rooms`: wrap each room and run it, in order. */
  function RunRooms(creeps: map<string, CreepMemory>, spawns: map<string, SpawnMemory>, rooms: map<string, RoomMemory>,
                    census: seq<Room.CreepEntry>, entries: seq<RoomEntry>): TickOutcome
  {
    if entries == [] then TickOutcome(creeps, spawns, [], 0, None)
    else
      var prev := RunRooms(creeps, spawns, rooms, census, entries[..|entries| - 1]);
      var e := entries[|entries| - 1];
      if prev.failure.Some? then prev
      else match Room.Construct(rooms, e.room.name)
        case Thrown(msg) => prev.(failure := Some(msg))
        case Ok(_) =>
          var p := Room.RunRoom(prev.creeps, prev.spawns, e.room, census, e.spawner, e.spawnResult);
          TickOutcome(p.creeps, p.spawns, prev.commands + p.commands, prev.ran + 1, None)
  }

  /** Rooms run in order until one whose memory carries a role: that one throws and the rest
      of the tick is skipped. So every room runs, once, exactly when none carries a role. */
  lemma {:induction false} RunRoomsRunsUntilFirstTagged(creeps: map<string, CreepMemory>, spawns: map<string, SpawnMemory>,
                                                        rooms: map<string, RoomMemory>, census: seq<Room.CreepEntry>,
                                                        entries: seq<RoomEntry>)
    ensures var o := RunRooms(creeps, spawns, rooms, census, entries);
      o.ran <= |entries| &&
      (forall i :: 0 <= i < o.ran ==> Room.RoomRole(rooms, entries[i].room.name).None?) &&
      (o.failure.None? <==> o.ran == |entries|) &&
      (o.failure.Some? ==> Room.RoomRole(rooms, entries[o.ran].room.name).Some?)
    ensures RunRooms(creeps, spawns, rooms, census, entries).ran == |entries| <==>
      forall i :: 0 <= i < |entries| ==> Room.RoomRole(rooms, entries[i].room.name).None?
  {
    if entries != [] {
      var front := entries[..|entries| - 1];
      RunRoomsRunsUntilFirstTagged(creeps, spawns, rooms, census, front);
      forall i | 0 <= i < |front| ensures front[i] == entries[i] { }
      Room.ConstructIffNoRole(rooms, entries[|entries| - 1].room.name);
    }
  }

  /** Names of the live creeps: the keys of `Game.creeps`. */
  function Names(census: seq<Room.CreepEntry>): set<string>
  {
    set e | e in census :: e.name
  }

  /** `loop`: garbage collection, then every room. */
  method Tick(store: MemoryStore, census: seq<Room.CreepEntry>, entries: seq<RoomEntry>)
    returns (log: seq<Freed>, cmds: seq<Command>, failure: Option<string>)
    modifies store`creeps, store`spawns
    ensures (set e | e in log :: e.name) == old(store.creeps).Keys - Names(census)
    ensures forall i, j :: 0 <= i < j < |log| ==> log[i].name != log[j].name
    ensures forall e :: e in log ==> e.bytes == JsonLength(e.name)
    ensures var o := RunRooms(Collected(old(store.creeps), Names(census)), old(store.spawns), store.rooms, census, entries);
      store.creeps == o.creeps && store.spawns == o.spawns && cmds == o.commands && failure == o.failure
  {
    log := CollectGarbage(store, Names(census));
    cmds, failure := RunEveryRoom(store, census, entries);
  }

  /** `Object.values(Game.rooms).forEach((r) => new ScreepyRoom(r).run())`; a throwing
      constructor ends the loop. */
  method RunEveryRoom(store: MemoryStore, census: seq<Room.CreepEntry>, entries: seq<RoomEntry>)
    returns (cmds: seq<Command>, failure: Option<string>)
    modifies store`creeps, store`spawns
    ensures var o := RunRooms(old(store.creeps), old(store.spawns), store.rooms, census, entries);
      store.creeps == o.creeps && store.spawns == o.spawns && cmds == o.commands && failure == o.failure
  {
    ghost var creeps0, spawns0 := store.creeps, store.spawns;
    ghost var ran := 0;
    cmds, failure := [], None;
    var i := 0;
    while i < |entries| && failure.None?
      invariant 0 <= i <= |entries|
      invariant RunRooms(creeps0, spawns0, store.rooms, census, entries[..i]) ==
                TickOutcome(store.creeps, store.spawns, cmds, ran, failure)
      decreases |entries| - i
    {
      var e := entries[i];
      RunRoomsUnfold(creeps0, spawns0, store.rooms, census, entries, i);
      var wrapped := Room.Construct(store.rooms, e.room.name);
      if wrapped.Thrown? {
        failure := Some(wrapped.message);
      } else {
        var out := Room.Run(store, e.room, census, e.spawner, e.spawnResult);
        cmds := cmds + out;
        ran := ran + 1;
      }
      i := i + 1;
    }
    if failure.Some? {
      RunRoomsStopsAfterFailure(creeps0, spawns0, store.rooms, census, entries, i);
    } else {
      assert entries[..i] == entries;
    }
  }

  /** One more room on top of a pass that has not failed. */
  lemma RunRoomsUnfold(creeps: map<string, CreepMemory>, spawns: map<string, SpawnMemory>,
                       rooms: map<string, RoomMemory>, census: seq<Room.CreepEntry>, entries: seq<RoomEntry>, i: nat)
    requires i < |entries|
    requires RunRooms(creeps, spawns, rooms, census, entries[..i]).failure.None?
    ensures var prev := RunRooms(creeps, spawns, rooms, census, entries[..i]);
      var e := entries[i];
      RunRooms(creeps, spawns, rooms, census, entries[..i + 1]) ==
        match Room.Construct(rooms, e.room.name)
        case Thrown(msg) => prev.(failure := Some(msg))
        case Ok(_) =>
          var p := Room.RunRoom(prev.creeps, prev.spawns, e.room, census, e.spawner, e.spawnResult);
          TickOutcome(p.creeps, p.spawns, prev.commands + p.commands, prev.ran + 1, None)
  {
    assert entries[..i + 1][..i] == entries[..i];
  }

  /** Once a room has thrown, the later rooms change nothing. */
  lemma {:induction false} RunRoomsStopsAfterFailure(creeps: map<string, CreepMemory>, spawns: map<string, SpawnMemory>,
                                                     rooms: map<string, RoomMemory>, census: seq<Room.CreepEntry>,
                                                     entries: seq<RoomEntry>, k: nat)
    requires k <= |entries|
    requires RunRooms(creeps, spawns, rooms, census, entries[..k]).failure.Some?
    ensures RunRooms(creeps, spawns, rooms, census, entries) == RunRooms(creeps, spawns, rooms, census, entries[..k])
    decreases |entries| - k
  {
    if k < |entries| {
      assert entries[..k + 1][..k] == entries[..k];
      RunRoomsStopsAfterFailure(creeps, spawns, rooms, census, entries, k + 1);
    } else {
      assert entries[..k] == entries;
    }
  }
}
