/** crates/target_process/src/models/v2/assignable/mod.rs: the v2 (camelCase)
    records returned by `/v2/assignables`, their id-only equality (the
    `id_getter!` macro) and the conversion of `IdAndName` to its v1 twin. */
module TpV2 {
  import opened Wrappers
  import V1 = TpV1Models

  datatype IdAndName = IdAndName(id: nat, name: string) {
    /** `id()` from `id_getter!`: the id field. */
    function Id(): nat {
      id
    }

    /** `PartialEq` from `id_getter!`: two values are equal when their ids are. */
    predicate Equals(other: IdAndName) {
      Id() == other.Id()
    }
  }

  datatype Project = Project(id: nat, name: string, resourceType: string, abbreviation: Option<string>)

  datatype Assignable = Assignable(
    id: nat,
    name: string,
    resourceType: string,
    description: Option<string>,
    entityType: IdAndName,
    entityState: IdAndName,
    project: Option<Project>)

  /** `From<IdAndName> for v1::IdAndName`. */
  function ToV1(x: IdAndName): (r: V1.IdAndName)
    ensures r.id == x.id && r.name == x.name
  {
    V1.IdAndName(x.id, x.name)
  }

  /** Equality looks at the id only: the names may differ. */
  lemma EqualsIgnoresName(id: nat, a: string, b: string)
    ensures IdAndName(id, a).Equals(IdAndName(id, b))
  {
  }

  /** Equality is decided by the ids, in both directions. */
  lemma EqualsIffSameId(x: IdAndName, y: IdAndName)
    ensures x.Equals(y) <==> x.id == y.id
  {
  }

  /** Id-only equality is an equivalence relation. */
  lemma EqualsIsEquivalence(x: IdAndName, y: IdAndName, z: IdAndName)
    ensures x.Equals(x)
    ensures x.Equals(y) ==> y.Equals(x)
    ensures x.Equals(y) && y.Equals(z) ==> x.Equals(z)
  {
  }

  /** The conversion keeps exactly what v1 equality compares, so it also maps
      v2-equal values with equal names to equal v1 values. */
  lemma ToV1Injective(x: IdAndName, y: IdAndName)
    requires ToV1(x) == ToV1(y)
    ensures x == y
  {
  }
}
