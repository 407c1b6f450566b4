/** The valibot adapter (src/index.ts): the generic builder, exposed without a latest-version accessor. */
module Valibot {
  import opened Engine
  import opened Versioned

  /**
   * `createVersionedSchema`: one branch per versions entry, in enumeration
   * order, branch i built from entry i and tagged with key i; the returned
   * `versions` list is the keys in the same order, without duplicates.
   */
  function CreateVersionedSchema(base: Shape, versions: Versions): (s: VersionedSchema)
    requires WellFormed(versions)
    ensures |s.schema| == |versions| && |s.versions| == |versions|
    ensures forall i :: 0 <= i < |versions| ==>
              s.schema[i] == Branch(base, versions[i].0, versions[i].1) && s.versions[i] == versions[i].0
    ensures Discriminated(s)
  {
    BuiltIsDiscriminated(base, versions);
    Build(base, versions)
  }
}
