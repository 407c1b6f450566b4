/**
 * The validation engine the versioned-schema builder is written against
 * (valibot in src/index.ts, zod in src/zod.ts), reduced to what the builder
 * uses: structural object validators, literal validators, a union of object
 * validators, and parse-or-fail. Field validators are left abstract: each is a
 * predicate over the property's value, or over None when the key is absent,
 * so that required, optional and nested fields are all the engine's business.
 */
module Engine {
  import opened Wrappers

  /** A JavaScript value as a validator sees it. */
  datatype Value =
    | Null
    | Bool(b: bool)
    | Num(n: int)
    | Str(s: string)
    | Arr(items: seq<Value>)
    | Obj(fields: map<string, Value>)

  /** A field validator: does it accept this property (None when the key is absent)? */
  type FieldValidator = Option<Value> -> bool

  /** The field set handed to the engine's object constructor. */
  type Shape = map<string, FieldValidator>

  /** The property `key` of `v`, or None when `v` is not an object or lacks the key. */
  function Get(v: Value, key: string): Option<Value>
  {
    if v.Obj? && key in v.fields then Some(v.fields[key]) else None
  }

  /** The engine's literal validator: only that exact primitive value is accepted. */
  function Literal(value: Value): FieldValidator
  {
    o => o == Some(value)
  }

  /** The engine's object validator: an object each of whose shape fields is accepted. */
  predicate Accepts(shape: Shape, v: Value)
  {
    v.Obj? && forall key :: key in shape ==> shape[key](Get(v, key))
  }

  /**
   * The output of a successful object parse: the input's properties restricted
   * to the shape's keys (unknown keys are stripped, absent optional keys stay absent).
   */
  function Project(shape: Shape, v: Value): (r: Value)
    ensures r.Obj? && r.fields.Keys <= shape.Keys
    ensures forall key :: key in shape ==> Get(r, key) == Get(v, key)
  {
    Obj(map key | key in shape && v.Obj? && key in v.fields :: v.fields[key])
  }

  /** A parsed object is accepted again by its shape and projects to itself. */
  lemma ProjectIsStable(shape: Shape, v: Value)
    requires Accepts(shape, v)
    ensures Accepts(shape, Project(shape, v))
    ensures Project(shape, Project(shape, v)) == Project(shape, v)
  {
    var r := Project(shape, v);
    assert forall key :: key in shape ==> Get(r, key) == Get(v, key);
    assert r.fields == Project(shape, r).fields;
  }

  /** Index of the first branch, in order, that accepts `v`; None when none does. */
  function FirstAccepting(branches: seq<Shape>, v: Value): (r: Option<nat>)
    ensures r.Some? ==> r.value < |branches| && Accepts(branches[r.value], v)
    ensures r.Some? ==> forall j :: 0 <= j < r.value ==> !Accepts(branches[j], v)
    ensures r.None? ==> forall j :: 0 <= j < |branches| ==> !Accepts(branches[j], v)
  {
    if branches == [] then None
    else if Accepts(branches[0], v) then Some(0)
    else match FirstAccepting(branches[1..], v)
      case None => None
      case Some(i) => Some(i + 1)
  }

  /**
   * Parse against the union of `branches`: the output of the first branch
   * that accepts `v`, or None (the engine's thrown validation error) when no
   * branch accepts it.
   */
  function ParseUnion(branches: seq<Shape>, v: Value): (r: Option<Value>)
    ensures r.Some? <==> exists i :: 0 <= i < |branches| && Accepts(branches[i], v)
    ensures r.Some? ==> exists i :: 0 <= i < |branches| && Accepts(branches[i], v)
                          && (forall j :: 0 <= j < i ==> !Accepts(branches[j], v))
                          && r.value == Project(branches[i], v)
  {
    match FirstAccepting(branches, v)
    case None => None
    case Some(i) => Some(Project(branches[i], v))
  }
}
