# versioned-schema, modelled in Dafny

`createVersionedSchema` builds one validator for records whose shape changes over time. It takes a `base` field set, shared by every version, and a `versions` mapping from tag to version-specific fields. For each `(tag, fields)` entry, in enumeration order, it builds one object branch `{...base, ...fields, version: literal(tag)}`. It then forms the union of those branches and returns accessors over the union:

- `parse` returns the output of the first branch that accepts the value, or throws.
- `validate` is `parse` with the failure turned into `false`.
- `isVersion(t, v)` is true when `parse` succeeds and the parsed `version` is strictly equal to `t`.
- `versions` is `Object.keys` of the mapping.
- The zod adapter adds `getLatestVersion()`, which returns the last of those keys.

The builder exists twice, over valibot (`src/index.ts`) and over zod (`src/zod.ts`). The two copies differ only in their accessor surface. The model has one generic core and shows both files to be instances of it.

Modules:

- `Wrappers`: `Option`.
- `Engine`: the validation engine, made abstract. A `Value` is a JavaScript value. A field validator is a predicate over `Option<Value>`, where `None` means the key is absent, so required, optional and nested fields are all the engine's concern. A `Shape` is a `map<string, FieldValidator>`. The module also defines:
  - the object validator (`Accepts`) and its output (`Project`);
  - the literal validator (`Literal`);
  - first-match union parsing (`FirstAccepting`, `ParseUnion`).

  A failed parse is `None`.
- `Versioned`: the generic builder and its properties:
  - `Branch` is the spread merge. Dafny's right-biased map `+` gives JavaScript's last-write-wins.
  - `Branches` and `VersionKeys` model `Object.entries(...).map` and `Object.keys`.
  - The `VersionedSchema` datatype carries `Parse`, `Validate` and `IsVersion`.
  - `Discriminated` is the invariant the construction establishes: one branch per tag, each branch pinning `version` to its own literal, and distinct tags.
  - The lemmas follow from that invariant. The key one: no value is accepted by two branches, so the union's first-match rule never has to break a tie.
- `Valibot`, `Zod`: the two adapters. `Zod.ZodVersionedSchema` keeps the mapping that `getLatestVersion`'s closure captures.
- `Scenarios`: the fixtures of the test files, stated as lemmas.

The versions mapping is given as the ordered sequence of `(tag, fields)` entries that `Object.entries` and `Object.keys` enumerate. Both calls enumerate in the same order. `WellFormed` requires distinct keys, as a JavaScript object has, and at least one entry.

The returned object has no `latest` property. `src/index.ts` has no latest-version accessor at all, and `src/zod.ts` exposes a function, `getLatestVersion`, which the model follows. (`src/zod.test.ts:197-223` reads `.latest`, which `src/zod.ts:80-87` does not return. The model's latest-version lemmas instead follow `src/effect.test.ts:195-221`, which call `getLatestVersion()`.) The `VersionedSchema` type admits number tags (`src/index.ts:89`). At run time, though, every tag is a key of a JavaScript object and so a string, and `literal(version as string)` is built from that string. `IsVersion` therefore takes any `Value` as the tag, and the number `1` never equals the tag `'1'`.

## Model

| member | source | states |
|---|---|---|
| Engine.Project | src/index.ts:46-50 | a parsed object keeps exactly the input's values on the branch's keys and nothing outside them |
| Engine.FirstAccepting | src/index.ts:44-52 | the union picks the first branch, in order, that accepts the value; none is picked only when every branch rejects it |
| Engine.ProjectIsStable | src/index.ts:46-54 | a parsed object is accepted again by its branch and projects to itself |
| Engine.ParseUnion | src/index.ts:54 | parse succeeds iff some branch accepts the value, and its output is the projection by the first branch, in order, that accepts it |
| Versioned.Branch | src/index.ts:46-50 | a branch has the base keys, the version keys and `version`; version fields override base fields, and `version` is always the tag literal, even when base or fields define it |
| Versioned.Branches | src/index.ts:45-51 | exactly one branch per versions entry, in the same order, branch i built from entry i |
| Versioned.VersionKeys | src/index.ts:82 | the `versions` list is the keys in enumeration order, element i the key of entry i |
| Versioned.VersionedSchema.Parse | src/index.ts:54 | `parse` succeeds iff some branch accepts the value; its output is the first accepting branch's projection of the value; None is the thrown error |
| Versioned.VersionedSchema.IsVersion | src/index.ts:65-75 | `isVersion(t, v)` holds only when `v` validates and its own `version` is strictly equal to `t` (the converse is `Versioned.IsVersionIff`) |
| Versioned.Build | src/index.ts:44-52 | the shared builder: one branch per entry, in order, branch i built from entry i; `versions` element i is key i |
| Versioned.VersionedSchema.Validate | src/index.ts:56-63 | `validate` is true exactly when some branch of the union accepts the value; it has no precondition and cannot fail |
| Versioned.BuiltIsDiscriminated | src/index.ts:44-52 | the built union has one branch per tag, branch i pins `version` to tag i, and the tags are distinct |
| Versioned.AcceptedCarriesTag | src/index.ts:49 | a branch accepts only values whose `version` is its own tag |
| Versioned.AtMostOneBranchAccepts | src/index.ts:44-52 | no value is accepted by two different branches |
| Versioned.ParseByUniqueBranch | src/index.ts:44-54 | a value accepted by branch i parses to branch i's output, whatever the branch order |
| Versioned.IsVersionIff | src/index.ts:65-75 | `isVersion(t, v)` holds exactly when `v` validates and its own `version` is strictly equal to `t` |
| Versioned.IsVersionDeterminesTag | src/index.ts:65-75 | `isVersion` implies `validate`, and two tags that both hold for one value are equal |
| Versioned.IsVersionOnlyDeclaredTag | src/index.ts:65-75 | `isVersion(t, v)` holds only when `t` is the string of a declared tag |
| Versioned.NumericTagNeverMatches | src/zod.ts:52-62 | a number is never a matching tag: `isVersion(1, v)` is false even when `v.version` is `'1'` |
| Versioned.UnknownTagRejected | src/index.ts:49 | a value whose `version` is missing or undeclared fails `parse`, and `validate` and every `isVersion` are false |
| Versioned.RejectedByOwnBranch | src/index.ts:44-54 | a value tagged with version i that branch i rejects fails `parse`: no other branch takes it |
| Versioned.ExactShapeParsesToItself | src/index.ts:44-54 | a value having only branch i's fields, all valid, parses to itself and is of version i and of no other version |
| Versioned.ParseIdempotent | src/index.ts:54 | the output of `parse` parses to itself |
| Versioned.MissingBaseFieldRejected | src/index.ts:46-50 | a value missing a required base field that no version overrides fails `parse` and `validate` |
| Versioned.MissingVersionFieldRejected | src/index.ts:46-50 | a value tagged with version i that lacks a field version i requires fails `parse` and `validate` |
| Valibot.CreateVersionedSchema | src/index.ts:44-83 | one branch per entry in order, branch i tagged with key i; `versions` is the keys in order; the union is discriminated |
| Zod.CreateVersionedSchema | src/zod.ts:30-87 | the same branches, union and `versions` as the valibot adapter, and the latest version is the last element of `versions` |
| Zod.ZodVersionedSchema.GetLatestVersion | src/zod.ts:75-78 | the latest version is the last key by enumeration order; an empty mapping gives `undefined` (None) |
| Scenarios.VersionsInOrder | src/index.test.ts:20-32 | keys `'1'`, `'2'` give the `versions` list `['1', '2']` |
| Scenarios.ValidV1Accepted | src/index.test.ts:36-45 | valid version-1 data parses to itself, validates, is version `'1'` and is not version `'2'` |
| Scenarios.ValidV2Accepted | src/index.test.ts:47-57 | valid version-2 data parses to itself, validates and is version `'2'` |
| Scenarios.InvalidDataRejected | src/index.test.ts:59-65 | data missing `createdAt` and `name` fails `parse`; `validate` and `isVersion('1', ·)` are false |
| Scenarios.InvalidVersionRejected | src/index.test.ts:67-75 | data tagged `'3'` fails `parse` and `validate` |
| Scenarios.ZodIsVersion | src/zod.test.ts:111-125 | through the zod adapter, version-1 data is version `'1'` and not version `'2'`, and the number 1 does not match it |
| Scenarios.ZodInvalidDataRejected | src/zod.test.ts:127-133 | through the zod adapter, data missing required fields fails `validate` and `isVersion` |
| Scenarios.OptionalFieldAccepted | src/index.test.ts:165-192 | an optional version field may be present or absent |
| Scenarios.LatestOfThree | src/effect.test.ts:195-208 | keys `'1'`, `'2'`, `'3'`, with the fixture's fields `{name}`, `{name, description}` and `{name, description: string[]}`, give the latest version `'3'` |
| Scenarios.LatestOfOne | src/effect.test.ts:210-221 | a single key is the latest version |

## Left out

- Validators inside the engine: the internals of valibot's and zod's `object`, `literal`, `union` and `parse`, including nested objects, arrays and optional wrappers. They are abstract field predicates here, so the nested-schema tests (`src/index.test.ts:134-163`) belong to the engine and are not modelled.
- Transforms and coercions: a field validator that rewrites its value is not modelled. A parsed value keeps the input's values.
- Unknown keys: the model fixes the policy that valibot's `object` and zod's `z.object` use by default. Unknown keys are stripped, and the output is projected onto the branch's keys. Passthrough and strict policies are not modelled.
- Engine errors: failure is `None`. The structured error objects and their messages are not modelled.
- Type-level machinery: the generic parameters, `VersionedSchema`, `VersionedSchemaType`, `SchemaVersionNumbers`, `InferVersionedSchema` and `OptionalizeUndefined`. They exist only at compile time.
- The `schema` property itself: it is exposed as the sequence of branches, and the engine-native union object is not modelled.
- JavaScript property enumeration order: integer-like keys enumerate in ascending numeric order and other keys in insertion order. That order is taken as given, as the order of the input sequence.
- Mutation of the captured `versions` object after construction: `getLatestVersion` re-reads `Object.keys` on every call, while the `versions` list is fixed at construction. The model treats the mapping as immutable, so the two always agree.
- An empty `versions` mapping: `WellFormed` excludes it. Only `GetLatestVersion` describes its result, `undefined` (None).
- Numbers are integers: JavaScript's floating-point numbers are not modelled. Only the kind of a value matters to the validators used here.
- `src/effect.ts` is not part of this model. Only its test file's latest-version expectations are used.
- Build scripts and test harnesses: not modelled.
