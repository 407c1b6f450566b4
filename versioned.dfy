/**
 * The versioned-union builder shared by both adapters: for each (tag, fields)
 * entry of the versions mapping, in enumeration order, one object branch
 * `{...base, ...fields, version: literal(tag)}`; the union of the branches;
 * and the accessors `parse`, `validate`, `isVersion` and `versions`.
 */
module Versioned {
  import opened Wrappers
  import opened Engine

  /** The reserved discriminant property. */
  const VersionKey: string := "version"

  /** A version tag: a key of the versions mapping (always a string in JavaScript). */
  type Tag = string

  /** The versions mapping, as the ordered (key, field set) entries it enumerates. */
  type Versions = seq<(Tag, Shape)>

  /** A JavaScript object used as the versions mapping: distinct keys, and at least one. */
  predicate WellFormed(versions: Versions)
  {
    |versions| > 0 &&
    forall i, j :: 0 <= i < j < |versions| ==> versions[i].0 != versions[j].0
  }

  /**
   * One branch, `{...base, ...fields, version: literal(tag)}`: later spreads
   * win, so version fields override base fields and the generated literal
   * overrides any caller field named `version`.
   */
  function Branch(base: Shape, tag: Tag, fields: Shape): (b: Shape)
    ensures b.Keys == base.Keys + fields.Keys + {VersionKey}
    ensures b[VersionKey] == Literal(Str(tag))
    ensures forall key :: key in fields && key != VersionKey ==> b[key] == fields[key]
    ensures forall key :: key in base && key !in fields && key != VersionKey ==> b[key] == base[key]
  {
    base + fields + map[VersionKey := Literal(Str(tag))]
  }

  /** `Object.entries(versions).map(...)`: one branch per entry, in order. */
  function Branches(base: Shape, versions: Versions): (r: seq<Shape>)
    ensures |r| == |versions|
    ensures forall i :: 0 <= i < |versions| ==> r[i] == Branch(base, versions[i].0, versions[i].1)
  {
    if versions == [] then []
    else [Branch(base, versions[0].0, versions[0].1)] + Branches(base, versions[1..])
  }

  /** `Object.keys(versions)`: the tags, in the same enumeration order as the entries. */
  function VersionKeys(versions: Versions): (r: seq<Tag>)
    ensures |r| == |versions|
    ensures forall i :: 0 <= i < |versions| ==> r[i] == versions[i].0
  {
    if versions == [] then [] else [versions[0].0] + VersionKeys(versions[1..])
  }

  /** The object both adapters return: the combined union and the ordered tag list. */
  datatype VersionedSchema = VersionedSchema(schema: seq<Shape>, versions: seq<Tag>)
  {
    /** `parse`: the first branch that accepts `v` decides the output; None is the thrown error. */
    function Parse(v: Value): (r: Option<Value>)
      ensures r.Some? <==> exists i :: 0 <= i < |schema| && Accepts(schema[i], v)
      ensures r.Some? ==> exists i :: 0 <= i < |schema| && Accepts(schema[i], v)
                            && (forall j :: 0 <= j < i ==> !Accepts(schema[j], v))
                            && r.value == Project(schema[i], v)
    {
      ParseUnion(schema, v)
    }

    /** `validate`: `parse` with its failure caught and turned into false. */
    predicate Validate(v: Value)
      ensures Validate(v) <==> exists i :: 0 <= i < |schema| && Accepts(schema[i], v)
    {
      Parse(v).Some?
    }

    /** `isVersion`: `parse` succeeds and the parsed `version` is strictly equal to `tag`. */
    predicate IsVersion(tag: Value, v: Value)
      ensures IsVersion(tag, v) ==> Validate(v) && Get(v, VersionKey) == Some(tag)
    {
      match Parse(v)
      case Some(parsed) => Get(parsed, VersionKey) == Some(tag)
      case None => false
    }
  }

  /** The accessor surface built from `base` and the versions mapping. */
  function Build(base: Shape, versions: Versions): (s: VersionedSchema)
    ensures |s.schema| == |versions| && |s.versions| == |versions|
    ensures forall i :: 0 <= i < |versions| ==>
              s.schema[i] == Branch(base, versions[i].0, versions[i].1) && s.versions[i] == versions[i].0
  {
    VersionedSchema(Branches(base, versions), VersionKeys(versions))
  }

  /**
   * What the construction guarantees: one branch per tag, branch i pins
   * `version` to the literal of tag i, and the tags are distinct.
   */
  ghost predicate Discriminated(s: VersionedSchema)
  {
    && |s.schema| == |s.versions|
    && (forall i, j :: 0 <= i < j < |s.versions| ==> s.versions[i] != s.versions[j])
    && (forall i :: 0 <= i < |s.schema| ==>
          VersionKey in s.schema[i] && s.schema[i][VersionKey] == Literal(Str(s.versions[i])))
  }

  /** The branches and keys built from a well-formed mapping form a discriminated union. */
  lemma BuiltIsDiscriminated(base: Shape, versions: Versions)
    requires WellFormed(versions)
    ensures Discriminated(Build(base, versions))
  {
  }

  /** A branch accepts only values whose `version` is that branch's own tag. */
  lemma AcceptedCarriesTag(s: VersionedSchema, i: nat, v: Value)
    requires Discriminated(s) && i < |s.schema|
    requires Accepts(s.schema[i], v)
    ensures Get(v, VersionKey) == Some(Str(s.versions[i]))
  {
  }

  /** The union is disjoint: no value is accepted by two different branches. */
  lemma AtMostOneBranchAccepts(s: VersionedSchema, i: nat, j: nat, v: Value)
    requires Discriminated(s) && i < |s.schema| && j < |s.schema|
    requires Accepts(s.schema[i], v) && Accepts(s.schema[j], v)
    ensures i == j
  {
  }

  /**
   * Parse succeeds exactly when some branch accepts the value, and then its
   * output is that branch's projection of the value whatever the branch order.
   */
  lemma ParseByUniqueBranch(s: VersionedSchema, i: nat, v: Value)
    requires Discriminated(s) && i < |s.schema|
    requires Accepts(s.schema[i], v)
    ensures s.Parse(v) == Some(Project(s.schema[i], v))
  {
  }

  /** `isVersion(t, v)` holds exactly when `v` validates and its own `version` is `t`. */
  lemma IsVersionIff(s: VersionedSchema, tag: Value, v: Value)
    requires Discriminated(s)
    ensures s.IsVersion(tag, v) <==> s.Validate(v) && Get(v, VersionKey) == Some(tag)
  {
  }

  /** `isVersion` implies `validate`, and a value is of at most one version. */
  lemma IsVersionDeterminesTag(s: VersionedSchema, t1: Value, t2: Value, v: Value)
    requires s.IsVersion(t1, v) && s.IsVersion(t2, v)
    ensures s.Validate(v) && t1 == t2
  {
  }

  /** `isVersion` holds only for a declared tag, compared as a string. */
  lemma IsVersionOnlyDeclaredTag(s: VersionedSchema, tag: Value, v: Value)
    requires Discriminated(s)
    requires s.IsVersion(tag, v)
    ensures exists i :: 0 <= i < |s.versions| && tag == Str(s.versions[i])
  {
  }

  /** Strict equality: a number never matches a tag, even `1` against `'1'`. */
  lemma NumericTagNeverMatches(s: VersionedSchema, n: int, v: Value)
    requires Discriminated(s)
    ensures !s.IsVersion(Num(n), v)
  {
  }

  /** A value whose `version` is missing or not a declared tag is rejected by every branch. */
  lemma UnknownTagRejected(s: VersionedSchema, v: Value)
    requires Discriminated(s)
    requires forall i :: 0 <= i < |s.versions| ==> Get(v, VersionKey) != Some(Str(s.versions[i]))
    ensures s.Parse(v) == None && !s.Validate(v)
    ensures forall tag :: !s.IsVersion(tag, v)
  {
  }

  /**
   * A value tagged with version i that branch i rejects (a required field
   * missing or invalid) fails to parse: no other branch can take it instead.
   */
  lemma RejectedByOwnBranch(s: VersionedSchema, i: nat, v: Value)
    requires Discriminated(s) && i < |s.schema|
    requires Get(v, VersionKey) == Some(Str(s.versions[i]))
    requires !Accepts(s.schema[i], v)
    ensures s.Parse(v) == None && !s.Validate(v)
    ensures forall tag :: !s.IsVersion(tag, v)
  {
  }

  /**
   * A value accepted by branch i and carrying no properties beyond that
   * branch's fields parses to itself and is of version i and no other.
   */
  lemma ExactShapeParsesToItself(s: VersionedSchema, i: nat, v: Value)
    requires Discriminated(s) && i < |s.schema|
    requires Accepts(s.schema[i], v) && v.fields.Keys <= s.schema[i].Keys
    ensures s.Parse(v) == Some(v)
    ensures forall tag :: s.IsVersion(tag, v) <==> tag == Str(s.versions[i])
  {
    ParseByUniqueBranch(s, i, v);
    assert Project(s.schema[i], v) == v;
    AcceptedCarriesTag(s, i, v);
    forall tag
      ensures s.IsVersion(tag, v) <==> tag == Str(s.versions[i])
    {
      IsVersionIff(s, tag, v);
    }
  }

  /** Parsing is idempotent: the output of `parse` parses to itself. */
  lemma ParseIdempotent(s: VersionedSchema, v: Value)
    requires Discriminated(s)
    requires s.Parse(v).Some?
    ensures s.Parse(s.Parse(v).value) == s.Parse(v)
  {
    var i: nat :| i < |s.schema| && Accepts(s.schema[i], v);
    ParseByUniqueBranch(s, i, v);
    var r := Project(s.schema[i], v);
    ProjectIsStable(s.schema[i], v);
    ParseByUniqueBranch(s, i, r);
  }

  /** A value lacking a required base field that no version overrides fails to parse. */
  lemma MissingBaseFieldRejected(base: Shape, versions: Versions, key: string, v: Value)
    requires WellFormed(versions)
    requires key in base && key != VersionKey && !base[key](None)
    requires forall i :: 0 <= i < |versions| ==> key !in versions[i].1
    requires Get(v, key) == None
    ensures Build(base, versions).Parse(v) == None && !Build(base, versions).Validate(v)
  {
  }

  /** A value tagged with version i that lacks a field version i requires fails to parse. */
  lemma MissingVersionFieldRejected(base: Shape, versions: Versions, i: nat, key: string, v: Value)
    requires WellFormed(versions) && i < |versions|
    requires Get(v, VersionKey) == Some(Str(versions[i].0))
    requires key in versions[i].1 && key != VersionKey && !versions[i].1[key](None)
    requires Get(v, key) == None
    ensures Build(base, versions).Parse(v) == None && !Build(base, versions).Validate(v)
  {
    var s := Build(base, versions);
    BuiltIsDiscriminated(base, versions);
    assert !s.schema[i][key](Get(v, key));
    RejectedByOwnBranch(s, i, v);
  }
}
