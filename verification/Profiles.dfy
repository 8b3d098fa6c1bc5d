/** Provider profiles and the saved-profile list operations. */
module Profiles {
  import opened Wrappers
  import opened Ordering

  type ProfileId = string

  // A reference to a stored secret; only persistent ones may be saved.
  datatype SecretRef = Persistent(name: string) | Session(name: string)

  datatype Profile = Profile(
    id: ProfileId,
    displayName: string,
    presetId: string,
    adapterType: string,
    baseEndpoint: string,
    secret: Option<SecretRef>,
    enabled: bool,
    selectedModel: Option<string>,
    rest: string)

  datatype Model = Model(id: string, rest: string)

  // Core's rule for model identifiers that a profile may select. It is not part
  // of this repository, so every statement is made for an arbitrary rule.
  type ModelRule = string -> bool

  function WithSelectedModel(rule: ModelRule, profile: Profile, model: Option<string>): Option<Profile> {
    if model.Some? && !rule(model.value) then None else Some(profile.(selectedModel := model))
  }

  predicate HasSessionSecret(profile: Profile) {
    profile.secret.Some? && profile.secret.value.Session?
  }

  predicate MatchExceptSecret(runtime: Profile, saved: Profile) {
    && runtime.id == saved.id
    && runtime.displayName == saved.displayName
    && runtime.presetId == saved.presetId
    && runtime.adapterType == saved.adapterType
    && runtime.baseEndpoint == saved.baseEndpoint
    && runtime.enabled == saved.enabled
    && runtime.selectedModel == saved.selectedModel
  }

  predicate HasModel(models: seq<Model>, id: string) {
    exists i :: 0 <= i < |models| && models[i].id == id
  }

  function FindRow(rows: seq<Profile>, id: ProfileId): (r: Option<Profile>)
    ensures r.Some? ==> r.value in rows && r.value.id == id
    ensures r.None? ==> forall p :: p in rows ==> p.id != id
  {
    if rows == [] then None
    else if rows[0].id == id then Some(rows[0])
    else FindRow(rows[1..], id)
  }

  function Position(rows: seq<Profile>, id: ProfileId): (r: Option<nat>)
    ensures r.Some? ==> r.value < |rows| && rows[r.value].id == id && forall j :: 0 <= j < r.value ==> rows[j].id != id
    ensures r.None? ==> forall p :: p in rows ==> p.id != id
  {
    if rows == [] then None
    else if rows[0].id == id then Some(0)
    else match Position(rows[1..], id)
      case None => None
      case Some(k) => Some(k + 1)
  }

  // Display name first, identifier to break ties.
  predicate RowLe(a: Profile, b: Profile) {
    if a.displayName != b.displayName then StringLe(a.displayName, b.displayName) else StringLe(a.id, b.id)
  }

  function SortRows(rows: seq<Profile>): seq<Profile> {
    SortBy(RowLe, rows)
  }

  function Upsert(rows: seq<Profile>, profile: Profile): seq<Profile> {
    SortRows(match Position(rows, profile.id)
             case Some(index) => rows[index := profile]
             case None => rows + [profile])
  }

  function RemoveAt<T>(rows: seq<T>, index: nat): seq<T>
    requires index < |rows|
  {
    rows[..index] + rows[index + 1..]
  }

  predicate UniqueIds(rows: seq<Profile>) {
    forall i, j :: 0 <= i < j < |rows| ==> rows[i].id != rows[j].id
  }
}
