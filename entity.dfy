/** What the select, number and switch entities share: the unique id each
    derives from the configuration entry's own. */
module Entity {
  import opened Types

  /** An entity's unique id: the entry's unique id and the entity's key
      joined by `_`, or none when the entry has no (or an empty) unique id. */
  function EntityId(uniqueId: Option<string>, key: string): (id: Option<string>)
    ensures id.Some? <==> uniqueId.Some? && uniqueId.value != ""
    ensures id.Some? ==> uniqueId.value <= id.value && id.value[|uniqueId.value|..] == "_" + key
  {
    if uniqueId.Some? && uniqueId.value != "" then Some(uniqueId.value + "_" + key) else None
  }
}
