/** The typed wrapper of the legacy lineage (`Screepy`): the expected role comes from the
    subclass's `role()`, and the only role there is is `harvest`. */
module RoleAbstract {
  import opened Host

  /** `Roles`: the one role of this lineage. */
  datatype Role = HarvestRole

  /** The tag a role is stored under in creep memory. */
  function RoleName(r: Role): string
  {
    match r
    case HarvestRole => "harvest"
  }

  /** A constructed wrapper: the creep's name and its (checked) role. */
  datatype Handle = Handle(creep: string, role: Role)

  /** The error text `${this} Unexpected role: "${memory.role}" (expected: "${role()}") <${creep.name}`,
      where `self` is the subclass's rendering of itself. */
  function MismatchMessage(self: string, actual: Option<string>, expected: Role, creepName: string): string
  {
    Message(self, RoleText(actual), RoleName(expected), creepName)
  }

  /** The `Screepy` constructor: throws unless the memory role equals `role()`. */
  function Construct(self: string, creepName: string, memoryRole: Option<string>, expected: Role): (r: Result<Handle>)
    ensures r.Ok? <==> memoryRole == Some(RoleName(expected))
    ensures r.Ok? ==> r.value == Handle(creepName, expected) && memoryRole == Some(RoleName(r.value.role))
    ensures r.Thrown? ==> r.message == MismatchMessage(self, memoryRole, expected, creepName)
  {
    if memoryRole != Some(RoleName(expected)) then Thrown(MismatchMessage(self, memoryRole, expected, creepName))
    else Ok(Handle(creepName, expected))
  }

  /** Since `harvest` is the only role, `harvest` is the only tag any wrapper accepts. */
  lemma OnlyHarvestAccepted(self: string, creepName: string, memoryRole: Option<string>)
    ensures (exists r: Role :: Construct(self, creepName, memoryRole, r).Ok?) <==> memoryRole == Some("harvest")
  {
    if memoryRole == Some("harvest") {
      assert Construct(self, creepName, memoryRole, HarvestRole).Ok?;
    }
  }

  /** The error names the role found, the role expected and the creep. */
  lemma MismatchMessageNamesAll(self: string, actual: Option<string>, expected: Role, creepName: string)
    ensures Contains(MismatchMessage(self, actual, expected, creepName), RoleText(actual))
    ensures Contains(MismatchMessage(self, actual, expected, creepName), RoleName(expected))
    ensures Contains(MismatchMessage(self, actual, expected, creepName), creepName)
  {
    var e := RoleName(expected);
    MessageShowsActual(self, RoleText(actual), e, creepName);
    MessageShowsExpected(self, RoleText(actual), e, creepName);
    MessageShowsCreep(self, RoleText(actual), e, creepName);
  }

  function Message(self: string, actual: string, expected: string, creepName: string): string
  {
    self + " Unexpected role: \"" + actual + "\" (expected: \"" + expected + "\") <" + creepName
  }

  lemma MessageShowsActual(self: string, actual: string, expected: string, creepName: string)
    ensures Contains(Message(self, actual, expected, creepName), actual)
  {
    var a := self + " Unexpected role: \"";
    assert Message(self, actual, expected, creepName) == a + actual + ("\" (expected: \"" + expected + "\") <" + creepName);
    ContainsMiddle(a, actual, "\" (expected: \"" + expected + "\") <" + creepName);
  }

  lemma MessageShowsExpected(self: string, actual: string, expected: string, creepName: string)
    ensures Contains(Message(self, actual, expected, creepName), expected)
  {
    var a := self + " Unexpected role: \"" + actual + "\" (expected: \"";
    assert Message(self, actual, expected, creepName) == a + expected + ("\") <" + creepName);
    ContainsMiddle(a, expected, "\") <" + creepName);
  }

  lemma MessageShowsCreep(self: string, actual: string, expected: string, creepName: string)
    ensures Contains(Message(self, actual, expected, creepName), creepName)
  {
    var a := self + " Unexpected role: \"" + actual + "\" (expected: \"" + expected + "\") <";
    assert Message(self, actual, expected, creepName) == a + creepName + [];
    ContainsMiddle(a, creepName, []);
  }
}
