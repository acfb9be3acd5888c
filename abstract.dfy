/** The typed wrappers of the current lineage (`AbstractScreepy`, `AbstractCreepScreepy`):
    a wrapper binds a role tag to a world object, and constructing one fails unless the
    object's persisted role equals the expected role. */
module Abstract {
  import opened Host

  /** A constructed wrapper: the wrapped object's id and the role tag its memory carries. */
  datatype Handle = Handle(id: string, role: Option<string>)

  /** The error text `${this}: Expected "${role}"", got "${memory.role}"`, where `self` is
      how the wrapper renders itself (`CreepText` for creeps, `RoomText` for rooms). */
  function MismatchMessage(self: string, expected: Option<string>, actual: Option<string>): string
  {
    Message(self, RoleText(expected), RoleText(actual))
  }

  /** The `AbstractScreepy` constructor: throws when the object's memory role differs from `role`. */
  function Construct(self: string, id: string, memoryRole: Option<string>, role: Option<string>): (r: Result<Handle>)
    ensures r.Ok? <==> memoryRole == role
    ensures r.Ok? ==> r.value == Handle(id, role)
    ensures r.Thrown? ==> r.message == MismatchMessage(self, role, memoryRole)
  {
    if memoryRole != role then Thrown(MismatchMessage(self, role, memoryRole)) else Ok(Handle(id, memoryRole))
  }

  /** The mismatch error names the wrapper, the expected tag and the tag it found. */
  lemma MismatchMessageNamesBoth(self: string, expected: Option<string>, actual: Option<string>)
    ensures Contains(MismatchMessage(self, expected, actual), self)
    ensures Contains(MismatchMessage(self, expected, actual), RoleText(expected))
    ensures Contains(MismatchMessage(self, expected, actual), RoleText(actual))
  {
    MessageShowsSelf(self, RoleText(expected), RoleText(actual));
    MessageShowsExpected(self, RoleText(expected), RoleText(actual));
    MessageShowsActual(self, RoleText(expected), RoleText(actual));
  }

  /** The mismatch template on the rendered role texts. */
  function Message(self: string, expected: string, actual: string): string
  {
    self + ": Expected \"" + expected + "\"\", got \"" + actual + "\""
  }

  lemma MessageShowsSelf(self: string, expected: string, actual: string)
    ensures Contains(Message(self, expected, actual), self)
  {
    var b := ": Expected \"" + expected + "\"\", got \"" + actual + "\"";
    assert Message(self, expected, actual) == [] + self + b;
    ContainsMiddle([], self, b);
  }

  lemma MessageShowsExpected(self: string, expected: string, actual: string)
    ensures Contains(Message(self, expected, actual), expected)
  {
    var a := self + ": Expected \"";
    var b := "\"\", got \"" + actual + "\"";
    assert Message(self, expected, actual) == a + expected + b;
    ContainsMiddle(a, expected, b);
  }

  lemma MessageShowsActual(self: string, expected: string, actual: string)
    ensures Contains(Message(self, expected, actual), actual)
  {
    var a := self + ": Expected \"" + expected + "\"\", got \"";
    assert Message(self, expected, actual) == a + actual + "\"";
    ContainsMiddle(a, actual, "\"");
  }

  /** `AbstractCreepScreepy.isNew`: a creep is new when its memory carries no role. */
  predicate IsNew(m: CreepMemory)
  {
    m.role.None?
  }

  /** A creep is new exactly when no wrapper with a defined role can be built over it. */
  lemma IsNewIffNoTaggedWrapper(m: CreepMemory, self: string, id: string)
    ensures IsNew(m) <==> forall r: string {:trigger Some(r)} :: Construct(self, id, m.role, Some(r)).Thrown?
  {
    if !IsNew(m) {
      assert Construct(self, id, m.role, Some(m.role.value)).Ok?;
    }
  }

  /** `AbstractCreepScreepy.toString`: `${memory.role}|#${id}`. */
  function CreepText(role: Option<string>, id: string): (s: string)
    ensures |s| == |RoleText(role)| + 2 + |id|
    ensures s[..|RoleText(role)|] == RoleText(role)
    ensures s[|RoleText(role)|..|RoleText(role)| + 2] == "|#"
    ensures s[|RoleText(role)| + 2..] == id
  {
    RoleText(role) + "|#" + id
  }

  /** Under one role, the rendering determines the id. */
  lemma CreepTextDeterminesId(role: Option<string>, a: string, b: string)
    requires CreepText(role, a) == CreepText(role, b)
    ensures a == b
  {
    var n := |RoleText(role)| + 2;
    assert a == CreepText(role, a)[n..] == CreepText(role, b)[n..] == b;
  }

  /** `ScreepyRoom.toString`: `<Room|${name}>`. */
  function RoomText(name: string): string
  {
    "<Room|" + name + ">"
  }
}
