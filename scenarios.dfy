/**
 * The fixtures of src/index.test.ts, src/zod.test.ts and src/effect.test.ts,
 * stated as lemmas about the model: base {id: string, createdAt: number}, version '1' adds
 * {name: string}, version '2' adds {name: string, description: string}.
 */
module Scenarios {
  import opened Wrappers
  import opened Engine
  import opened Versioned
  import Valibot
  import Zod

  /** The engine's string and number validators, and its optional wrapper. */
  function IsString(): FieldValidator { (o: Option<Value>) => o.Some? && o.value.Str? }
  function IsNumber(): FieldValidator { (o: Option<Value>) => o.Some? && o.value.Num? }
  function Optional(f: FieldValidator): FieldValidator { (o: Option<Value>) => o.None? || f(o) }
  function IsStringArray(): FieldValidator
  {
    (o: Option<Value>) => o.Some? && o.value.Arr? && forall x :: x in o.value.items ==> x.Str?
  }

  function TestBase(): Shape
  {
    map["id" := IsString(), "createdAt" := IsNumber()]
  }

  function TestVersions(): Versions
  {
    [("1", map["name" := IsString()]),
     ("2", map["name" := IsString(), "description" := IsString()])]
  }

  function ValidV1(): Value
  {
    Obj(map["id" := Str("test-id"), "createdAt" := Num(123456789),
            "name" := Str("Test Name"), "version" := Str("1")])
  }

  function ValidV2(): Value
  {
    Obj(map["id" := Str("test-id"), "createdAt" := Num(123456789), "name" := Str("Test Name"),
            "description" := Str("Test Description"), "version" := Str("2")])
  }

  /** Missing `createdAt` and `name`. */
  function InvalidData(): Value
  {
    Obj(map["id" := Str("test-id"), "version" := Str("1")])
  }

  /** A tag that is not declared. */
  function InvalidVersion(): Value
  {
    Obj(map["id" := Str("test-id"), "createdAt" := Num(123456789),
            "name" := Str("Test Name"), "version" := Str("3")])
  }

  /** `versions` is `['1', '2']`. */
  lemma VersionsInOrder()
    ensures WellFormed(TestVersions())
    ensures Valibot.CreateVersionedSchema(TestBase(), TestVersions()).versions == ["1", "2"]
  {
  }

  /** Valid version-1 data parses to itself, validates, and is of version '1' only. */
  lemma ValidV1Accepted()
    ensures WellFormed(TestVersions())
    ensures var s := Valibot.CreateVersionedSchema(TestBase(), TestVersions());
      && s.Parse(ValidV1()) == Some(ValidV1())
      && s.Validate(ValidV1())
      && s.IsVersion(Str("1"), ValidV1())
      && !s.IsVersion(Str("2"), ValidV1())
  {
    var s := Valibot.CreateVersionedSchema(TestBase(), TestVersions());
    var v := ValidV1();
    assert s.schema[0] == Branch(TestBase(), "1", map["name" := IsString()]);
    assert Accepts(s.schema[0], v);
    ExactShapeParsesToItself(s, 0, v);
  }

  /** Valid version-2 data parses to itself and validates. */
  lemma ValidV2Accepted()
    ensures WellFormed(TestVersions())
    ensures var s := Valibot.CreateVersionedSchema(TestBase(), TestVersions());
      && s.Parse(ValidV2()) == Some(ValidV2())
      && s.Validate(ValidV2())
      && s.IsVersion(Str("2"), ValidV2())
  {
    var s := Valibot.CreateVersionedSchema(TestBase(), TestVersions());
    var v := ValidV2();
    assert s.schema[1] == Branch(TestBase(), "2", map["name" := IsString(), "description" := IsString()]);
    assert Accepts(s.schema[1], v);
    ExactShapeParsesToItself(s, 1, v);
  }

  /** Data missing required fields fails to parse; `validate` and `isVersion` give false. */
  lemma InvalidDataRejected()
    ensures WellFormed(TestVersions())
    ensures var s := Valibot.CreateVersionedSchema(TestBase(), TestVersions());
      && s.Parse(InvalidData()) == None
      && !s.Validate(InvalidData())
      && !s.IsVersion(Str("1"), InvalidData())
  {
    MissingBaseFieldRejected(TestBase(), TestVersions(), "createdAt", InvalidData());
  }

  /** Data tagged with the undeclared version '3' fails to parse. */
  lemma InvalidVersionRejected()
    ensures WellFormed(TestVersions())
    ensures var s := Valibot.CreateVersionedSchema(TestBase(), TestVersions());
      s.Parse(InvalidVersion()) == None && !s.Validate(InvalidVersion())
  {
  }

  /** The zod adapter accepts version-1 data as version '1' only; the number 1 is not the tag '1'. */
  lemma ZodIsVersion()
    ensures WellFormed(TestVersions())
    ensures var s := Zod.CreateVersionedSchema(TestBase(), TestVersions()).surface;
      && s.IsVersion(Str("1"), ValidV1())
      && !s.IsVersion(Str("2"), ValidV1())
      && !s.IsVersion(Num(1), ValidV1())
  {
    var s := Zod.CreateVersionedSchema(TestBase(), TestVersions()).surface;
    assert s.schema[0] == Branch(TestBase(), "1", map["name" := IsString()]);
    assert Accepts(s.schema[0], ValidV1());
    ExactShapeParsesToItself(s, 0, ValidV1());
  }

  /** The zod adapter rejects data missing required fields. */
  lemma ZodInvalidDataRejected()
    ensures WellFormed(TestVersions())
    ensures var s := Zod.CreateVersionedSchema(TestBase(), TestVersions()).surface;
      !s.Validate(InvalidData()) && !s.IsVersion(Str("1"), InvalidData())
  {
    MissingBaseFieldRejected(TestBase(), TestVersions(), "createdAt", InvalidData());
  }

  /** An optional version field may be present or absent. */
  lemma OptionalFieldAccepted()
    ensures WellFormed([("1", map["optional" := Optional(IsString())])])
    ensures var s := Valibot.CreateVersionedSchema(map["required" := IsString()],
                                                   [("1", map["optional" := Optional(IsString())])]);
      && s.Validate(Obj(map["required" := Str("test"), "optional" := Str("present"), "version" := Str("1")]))
      && s.Validate(Obj(map["required" := Str("test"), "version" := Str("1")]))
  {
  }

  /** The latest-version fixture: base {id}, versions '1', '2' and '3' with growing fields. */
  function LatestBase(): Shape
  {
    map["id" := IsString()]
  }

  function ThreeVersions(): Versions
  {
    [("1", map["name" := IsString()]),
     ("2", map["name" := IsString(), "description" := IsString()]),
     ("3", map["name" := IsString(), "description" := IsStringArray()])]
  }

  /** With keys '1', '2', '3' the latest version is '3'. */
  lemma LatestOfThree()
    ensures WellFormed(ThreeVersions())
    ensures Zod.CreateVersionedSchema(LatestBase(), ThreeVersions()).GetLatestVersion() == Some("3")
  {
  }

  /** With a single key the latest version is that key. */
  lemma LatestOfOne()
    ensures WellFormed([("1", map["name" := IsString()])])
    ensures Zod.CreateVersionedSchema(LatestBase(), [("1", map["name" := IsString()])]).GetLatestVersion() == Some("1")
  {
  }
}
