/** crates/target_process/src/models/v1/assignable/{mod,models}.rs: the v1
    (PascalCase) records shared by the assignable model and the payloads the
    client posts. */
module TpV1Models {

  /** `ID`: a bare `{ "Id": n }` reference. */
  datatype Id = Id(id: nat)

  /** v1 `IdAndName`: plain structural equality (no custom `PartialEq`). */
  datatype IdAndName = IdAndName(id: nat, name: string)

  datatype Project = Project(id: nat, resourceType: string, name: string)

  datatype UpdateEntityStatePayload = UpdateEntityStatePayload(id: nat, entityState: Id)
}
