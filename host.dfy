/** The host surface the colony controller talks to: persisted memory records,
    the commands a creep or a spawner can issue, result codes, and the string
    rendering that names and labels are built from. */
module Host {

  datatype Option<+T> = None | Some(value: T)

  /** The outcome of a wrapper's constructor: the wrapper, or the message of the error it throws. */
  datatype Result<+T> = Ok(value: T) | Thrown(message: string)

  /** Result codes returned by the host's action verbs (Screeps constants). */
  const OK: int := 0
  const ERR_NOT_IN_RANGE: int := -9

  /** JavaScript truthiness of an optional string field: `undefined` and `""` are falsy. */
  predicate Truthy(s: Option<string>)
  {
    s.Some? && s.value != ""
  }

  /** The persisted record of one creep (`Memory.creeps[name]`). A missing field is `None`. */
  datatype CreepMemory = CreepMemory(role: Option<string>, harvest: Option<string>, goal: Option<string>)

  /** What `creep.memory` reads for a creep that has no persisted record. */
  const EmptyMemory := CreepMemory(None, None, None)

  /** The persisted record of one spawner (`Memory.spawns[name]`); only `nextId` is used. */
  datatype SpawnMemory = SpawnMemory(nextId: Option<int>)

  /** The persisted record of one room (`Memory.rooms[name]`); only `role` is used. */
  datatype RoomMemory = RoomMemory(role: Option<string>)

  /** The target of an action: a world object by id, or `undefined`. */
  datatype Target = Obj(id: string) | Undefined

  datatype Verb = Harvest | Transfer | Withdraw | UpgradeController

  /** A host call issued by a creep during its step. */
  datatype CreepCommand = Act(verb: Verb, target: Target) | MoveTo(to: Target) | Suicide

  /** The pattern every action step of every creep follows: try the action on the target and, when the
      host answers `ERR_NOT_IN_RANGE`, move to that same target. */
  function Attempt(verb: Verb, target: Target, result: int): (cmds: seq<CreepCommand>)
    ensures 1 <= |cmds| <= 2 && cmds[0] == Act(verb, target)
    ensures |cmds| == 2 <==> result == ERR_NOT_IN_RANGE
    ensures |cmds| == 2 ==> cmds[1] == MoveTo(target)
  {
    [Act(verb, target)] + if result == ERR_NOT_IN_RANGE then [MoveTo(target)] else []
  }

  datatype BodyPart = Work | Carry | Move

  /** A host call issued during a room's pass. */
  datatype Command =
    | Creep(creep: string, command: CreepCommand)
    | SpawnCreep(spawner: string, body: seq<BodyPart>, name: string, memory: CreepMemory)

  /** The host's `Memory` global: persisted records keyed by creep, spawner and room name.
      It survives across ticks and is updated in place. */
  class MemoryStore {
    var creeps: map<string, CreepMemory>
    var spawns: map<string, SpawnMemory>
    var rooms: map<string, RoomMemory>

    constructor(creeps: map<string, CreepMemory>, spawns: map<string, SpawnMemory>, rooms: map<string, RoomMemory>)
      ensures this.creeps == creeps && this.spawns == spawns && this.rooms == rooms
    {
      this.creeps := creeps;
      this.spawns := spawns;
      this.rooms := rooms;
    }
  }

  /** `creep.memory` for the creep called `name`: its record, or `{}` when it has none. */
  function MemoryOf(creeps: map<string, CreepMemory>, name: string): CreepMemory
  {
    if name in creeps then creeps[name] else EmptyMemory
  }

  // ---------------------------------------------------------------------------
  // String rendering

  function Digit(d: nat): (c: char)
    requires d < 10
  {
    "0123456789"[d]
  }

  /** Decimal rendering of a natural number, as a template literal renders it. */
  function NatToString(n: nat): (s: string)
    ensures |s| >= 1
    ensures n >= 10 ==> |s| >= 2
    ensures forall i :: 0 <= i < |s| ==> '0' <= s[i] <= '9'
  {
    if n < 10 then [Digit(n)] else NatToString(n / 10) + [Digit(n % 10)]
  }

  /** Decimal rendering of an integer, with a leading `-` when negative. */
  function IntToString(n: int): (s: string)
    ensures |s| >= 1 && (s[0] == '-' <==> n < 0)
    ensures forall i :: 1 <= i < |s| ==> '0' <= s[i] <= '9'
  {
    if n < 0 then "-" + NatToString(-n) else NatToString(n)
  }

  lemma DigitInjective(a: nat, b: nat)
    requires a < 10 && b < 10 && Digit(a) == Digit(b)
    ensures a == b
  {
  }

  /** Different numbers render differently. */
  lemma {:induction false} NatToStringInjective(a: nat, b: nat)
    requires NatToString(a) == NatToString(b)
    ensures a == b
  {
    var s := NatToString(a);
    if a < 10 && b < 10 {
      DigitInjective(a, b);
    } else if a >= 10 && b >= 10 {
      var k := |s| - 1;
      assert s == NatToString(a / 10) + [Digit(a % 10)];
      assert s == NatToString(b / 10) + [Digit(b % 10)];
      assert s[k] == Digit(a % 10) && s[k] == Digit(b % 10);
      DigitInjective(a % 10, b % 10);
      assert NatToString(a / 10) == s[..k] == NatToString(b / 10);
      NatToStringInjective(a / 10, b / 10);
    } else {
      assert false;
    }
  }

  /** Different integers render differently, negative ones included. */
  lemma IntToStringInjective(a: int, b: int)
    requires IntToString(a) == IntToString(b)
    ensures a == b
  {
    var s := IntToString(a);
    if a < 0 {
      assert s[0] == '-';
      assert b < 0;
      assert NatToString(-a) == s[1..] == NatToString(-b);
      NatToStringInjective(-a, -b);
    } else {
      assert '0' <= s[0] <= '9';
      assert b >= 0;
      NatToStringInjective(a, b);
    }
  }

  /** The name template `${prefix} #${number}` shared by the name probe and the spawner. */
  function Label(prefix: string, number: string): (s: string)
    ensures |s| == |prefix| + 2 + |number|
    ensures s[..|prefix|] == prefix && s[|prefix| + 2..] == number
  {
    prefix + " #" + number
  }

  /** `${prefix} #${k}` for a natural k. */
  function Name(prefix: string, k: nat): string
  {
    Label(prefix, NatToString(k))
  }

  /** One prefix and two different numbers never give the same name. */
  lemma NameInjective(prefix: string, j: nat, k: nat)
    requires Name(prefix, j) == Name(prefix, k)
    ensures j == k
  {
    var s := Name(prefix, j);
    assert NatToString(j) == s[|prefix| + 2..] == NatToString(k);
    NatToStringInjective(j, k);
  }

  /** How a template literal renders an optional string: `undefined` when absent. */
  function RoleText(r: Option<string>): string
  {
    if r.Some? then r.value else "undefined"
  }

  /** `t` occurs in `s` starting at index `i`. */
  predicate OccursAt(s: string, t: string, i: nat)
  {
    i + |t| <= |s| && s[i..i + |t|] == t
  }

  ghost predicate Contains(s: string, t: string)
  {
    exists i: nat :: OccursAt(s, t, i)
  }

  /** A string placed between two others occurs in the concatenation. */
  lemma ContainsMiddle(a: string, t: string, b: string)
    ensures Contains(a + t + b, t)
  {
    assert (a + t + b)[|a|..|a| + |t|] == t;
    assert OccursAt(a + t + b, t, |a|);
  }
}
