/** The zod adapter (src/zod.ts): the generic builder plus `getLatestVersion`. */
module Zod {
  import opened Wrappers
  import opened Engine
  import opened Versioned

  /** The object src/zod.ts returns: the shared accessor surface and the mapping its closures capture. */
  datatype ZodVersionedSchema = ZodVersionedSchema(surface: VersionedSchema, captured: Versions)
  {
    /**
     * `getLatestVersion`: the last of `Object.keys` of the captured mapping,
     * by enumeration order and not by magnitude; None stands for the
     * `undefined` an empty mapping would give.
     */
    function GetLatestVersion(): (latest: Option<Tag>)
      ensures latest.Some? <==> |captured| > 0
      ensures latest.Some? ==> latest.value == captured[|captured| - 1].0
    {
      var keys := VersionKeys(captured);
      if |keys| == 0 then None else Some(keys[|keys| - 1])
    }
  }

  /**
   * `createVersionedSchema`: the same branches, union and `versions` list as
   * the valibot adapter, and a latest version that is the last element of
   * the returned `versions` list.
   */
  function CreateVersionedSchema(base: Shape, versions: Versions): (z: ZodVersionedSchema)
    requires WellFormed(versions)
    ensures |z.surface.schema| == |versions| && |z.surface.versions| == |versions|
    ensures forall i :: 0 <= i < |versions| ==>
              z.surface.schema[i] == Branch(base, versions[i].0, versions[i].1) && z.surface.versions[i] == versions[i].0
    ensures Discriminated(z.surface)
    ensures z.GetLatestVersion() == Some(z.surface.versions[|versions| - 1])
  {
    BuiltIsDiscriminated(base, versions);
    ZodVersionedSchema(Build(base, versions), versions)
  }
}
