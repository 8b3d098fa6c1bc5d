/**
 What holds in every reachable state of the client, with no obligation on the
 order in which operations are called.
 */
module Invariant {
  import opened Wrappers
  import opened Profiles
  import opened Transitions
  import opened SavedRows

  predicate NamesRow(s: State, pointer: Option<ProfileId>) {
    pointer.Some? ==> HasId(s.savedProfiles, pointer.value)
  }

  predicate Pointers(s: State) {
    && NamesRow(s, s.selectedSavedId)
    && NamesRow(s, s.persistedActiveId)
    && NamesRow(s, s.activeSavedId)
    && NamesRow(s, s.pendingDeletion)
  }

  // A connection that is recorded as saved is the active provider, is the
  // restart default, and agrees with its saved row.
  predicate SavedConnection(s: State) {
    s.activeSavedId.Some? ==>
      && s.activeProvider.Some?
      && s.activeSavedId == s.persistedActiveId == Some(s.activeProvider.value.id)
      && FindRow(s.savedProfiles, s.activeSavedId.value).Some?
      && MatchExceptSecret(s.activeProvider.value, FindRow(s.savedProfiles, s.activeSavedId.value).value)
  }

  predicate Discovered(s: State) {
    && (s.selectedModel.Some? ==> HasModel(s.models, s.selectedModel.value))
    && (s.pendingModel.Some? ==> HasModel(s.models, s.pendingModel.value))
    && (s.activeProvider.None? ==> s.models == [])
  }

  predicate Storage(s: State) {
    && (s.storage != StorageAvailable ==>
          && s.savedProfiles == []
          && s.selectedSavedId == s.persistedActiveId == s.activeSavedId == s.pendingDeletion == None
          && !s.pendingWillBeSaved)
    && (s.pendingWillBeSaved ==> s.pendingProvider.Some?)
    && (s.pendingProvider.Some? ==> s.pendingProvider.value.enabled)
  }

  predicate Inv(s: State) {
    UniqueIds(s.savedProfiles) && Pointers(s) && SavedConnection(s) && Discovered(s) && Storage(s)
  }

  lemma {:induction false} InvInitial()
    ensures Inv(INITIAL)
  {
  }

  // An accepted outcome keeps the invariant.
  predicate Keeps(s: State, r: Outcome) {
    Inv(s) && r.Success? ==> Inv(r.value)
  }

  // Pointers survive any change of rows that drops no identifier.
  lemma {:induction false} SameIdsKeepPointers(s: State, next: State)
    requires Pointers(s) && UniqueIds(s.savedProfiles) && UniqueIds(next.savedProfiles)
    requires AsMap(s.savedProfiles).Keys <= AsMap(next.savedProfiles).Keys
    ensures NamesRow(next, s.selectedSavedId) && NamesRow(next, s.persistedActiveId)
    ensures NamesRow(next, s.activeSavedId) && NamesRow(next, s.pendingDeletion)
  {
    forall id | HasId(s.savedProfiles, id)
      ensures HasId(next.savedProfiles, id)
    {
      FindRowIsLookup(s.savedProfiles, id);
      FindRowIsLookup(next.savedProfiles, id);
    }
  }

  lemma {:induction false} UpdateHealthKeeps(s: State, profile: Profile)
    ensures Keeps(s, UpdateHealthOf(s, profile))
  {
    var r := UpdateHealthOf(s, profile);
    if Inv(s) && r.Success? {
      var next := r.value;
      ReplaceRow(s.savedProfiles, Position(s.savedProfiles, profile.id).value, profile);
      SameIdsKeepPointers(s, next);
      if s.activeSavedId.Some? {
        FindRowIsLookup(s.savedProfiles, s.activeSavedId.value);
        FindRowIsLookup(next.savedProfiles, s.activeSavedId.value);
      }
    }
  }

  lemma {:induction false} RestoreKeeps(s: State, rows: seq<Profile>, default: Option<ProfileId>)
    ensures Keeps(s, RestoreOf(s, rows, default))
  {
  }

  lemma {:induction false} SelectSavedKeeps(s: State, id: Option<ProfileId>)
    ensures Keeps(s, SelectSavedOf(s, id))
  {
  }

  lemma {:induction false} ProviderFailedKeeps(s: State, error: TranslationError)
    ensures Keeps(s, Success(ProviderFailedOf(s, error)))
  {
  }

  lemma {:induction false} StorageLostKeeps(s: State, error: TranslationError)
    ensures Keeps(s, Success(StorageLostOf(s, error)))
  {
  }

  lemma {:induction false} BeginConnectionKeeps(s: State, profile: Profile, remember: bool)
    ensures Keeps(s, BeginConnectionOf(s, profile, remember))
  {
  }

  lemma {:induction false} ConnectedKeeps(
      rule: ModelRule, s: State, profile: Profile, models: seq<Model>, saved: Option<Profile>)
    ensures Keeps(s, ConnectedOf(rule, s, profile, models, saved))
  {
    var r := ConnectedOf(rule, s, profile, models, saved);
    if Inv(s) && r.Success? && saved.Some? {
      UpsertIsUpdate(s.savedProfiles, saved.value);
      SameIdsKeepPointers(s, r.value);
      FindRowIsLookup(r.value.savedProfiles, saved.value.id);
    }
  }

  lemma {:induction false} ConnectionFailedKeeps(s: State, profile: Profile, error: TranslationError)
    ensures Keeps(s, ConnectionFailedOf(s, profile, error))
  {
  }

  lemma {:induction false} BeginModelSelectionKeeps(s: State, model: string)
    ensures Keeps(s, BeginModelSelectionOf(s, model))
  {
  }

  lemma {:induction false} ConfirmModelSavedKeeps(
      rule: ModelRule, s: State, id: ProfileId, model: string, saved: Option<Profile>)
    ensures Keeps(s, ConfirmModelSavedOf(rule, s, id, model, saved))
  {
    var r := ConfirmModelSavedOf(rule, s, id, model, saved);
    if Inv(s) && r.Success? && saved.Some? {
      UpsertIsUpdate(s.savedProfiles, saved.value);
      SameIdsKeepPointers(s, r.value);
      FindRowIsLookup(r.value.savedProfiles, id);
    }
  }

  // The saved row that `confirm_model_selection` derives from its own state.
  function SuppliedRow(rule: ModelRule, s: State, model: string): Option<Profile> {
    if s.activeSavedId.None? then None
    else match FindRow(s.savedProfiles, s.activeSavedId.value)
      case None => None
      case Some(row) => WithSelectedModel(rule, row, Some(model))
  }

  lemma {:induction false} ConfirmModelSupplies(rule: ModelRule, s: State, model: string)
    requires ConfirmModelOf(rule, s, model).Success?
    ensures s.activeProvider.Some?
    ensures ConfirmModelOf(rule, s, model)
         == ConfirmModelSavedOf(rule, s, s.activeProvider.value.id, model, SuppliedRow(rule, s, model))
  {
  }

  lemma {:induction false} ConfirmModelKeeps(rule: ModelRule, s: State, model: string)
    ensures Keeps(s, ConfirmModelOf(rule, s, model))
  {
    if ConfirmModelOf(rule, s, model).Success? {
      ConfirmModelSupplies(rule, s, model);
      ConfirmModelSavedKeeps(rule, s, s.activeProvider.value.id, model, SuppliedRow(rule, s, model));
    }
  }

  lemma {:induction false} ModelSelectionFailedKeeps(s: State, model: string, error: TranslationError)
    ensures Keeps(s, ModelSelectionFailedOf(s, model, error))
  {
  }

  lemma {:induction false} SelectModelKeeps(s: State, model: string)
    ensures Keeps(s, SelectModelOf(s, model))
  {
  }

  lemma {:induction false} BeginDeletionKeeps(s: State, id: ProfileId)
    ensures Keeps(s, BeginDeletionOf(s, id))
  {
  }

  lemma {:induction false} OtherRowsStay(rows: seq<Profile>, id: ProfileId, other: ProfileId)
    requires UniqueIds(rows) && Position(rows, id).Some? && other != id
    ensures var next := RemoveAt(rows, Position(rows, id).value);
            && (HasId(rows, other) ==> HasId(next, other))
            && FindRow(next, other) == FindRow(rows, other)
  {
    var next := RemoveAt(rows, Position(rows, id).value);
    RemoveIsRemoval(rows, Position(rows, id).value);
    FindRowIsLookup(rows, other);
    FindRowIsLookup(next, other);
  }

  lemma {:induction false} ConfirmDeletionKeeps(s: State, id: ProfileId)
    ensures Keeps(s, ConfirmDeletionOf(s, id))
  {
    var r := ConfirmDeletionOf(s, id);
    if Inv(s) && r.Success? {
      var next := r.value;
      RemoveIsRemoval(s.savedProfiles, Position(s.savedProfiles, id).value);
      forall other | other != id
        ensures HasId(s.savedProfiles, other) ==> HasId(next.savedProfiles, other)
        ensures FindRow(next.savedProfiles, other) == FindRow(s.savedProfiles, other)
      {
        OtherRowsStay(s.savedProfiles, id, other);
      }
    }
  }

  lemma {:induction false} DeletionFailedKeeps(s: State, id: ProfileId, error: TranslationError)
    ensures Keeps(s, DeletionFailedOf(s, id, error))
  {
  }

  predicate IsSettingOp(op: Op) {
    op.SetInput? || op.SetPreference? || op.RecordRouting? || op.ClearWorkspace?
  }

  predicate IsDocumentOp(op: Op) {
    op.BeginDocument? || op.SetDocumentOutput? || op.CompleteDocument? || op.CancelDocument? || op.PauseDocument?
    || op.FailDocument?
  }

  predicate IsTranslationOp(op: Op) {
    op.BeginTranslation? || op.RequestCancellation? || op.StreamEvent? || op.RecordClientError?
    || op.RecordStreamError? || op.RecordOperationFailure?
  }

  // Operations on the workspace, the stream and the settings.
  predicate IsWorkspaceOp(op: Op) {
    IsSettingOp(op) || IsDocumentOp(op) || IsTranslationOp(op)
  }

  predicate SameProviders(s: State, next: State) {
    && next.activeProvider == s.activeProvider
    && next.pendingProvider == s.pendingProvider
    && next.savedProfiles == s.savedProfiles
    && next.selectedSavedId == s.selectedSavedId
    && next.persistedActiveId == s.persistedActiveId
    && next.activeSavedId == s.activeSavedId
    && next.storage == s.storage
    && next.pendingDeletion == s.pendingDeletion
    && next.pendingWillBeSaved == s.pendingWillBeSaved
    && next.models == s.models
    && next.selectedModel == s.selectedModel
    && next.pendingModel == s.pendingModel
  }

  lemma {:induction false} FrameKeeps(s: State, next: State)
    requires SameProviders(s, next)
    ensures Inv(s) ==> Inv(next)
  {
  }

  lemma {:induction false} StreamEventKeeps(s: State, event: TranslationEvent)
    ensures Keeps(s, StreamEventOf(s, event))
  {
    if StreamEventOf(s, event).Success? {
      EventFrame(s, event);
      FrameKeeps(s, StreamEventOf(s, event).value);
    }
  }

  lemma {:induction false} ClearWorkspaceKeeps(s: State)
    ensures Keeps(s, Success(ClearWorkspaceOf(s)))
  {
    FrameKeeps(s, ClearWorkspaceOf(s));
  }

  lemma {:induction false} SettingFrame(rule: ModelRule, s: State, op: Op)
    requires IsSettingOp(op)
    ensures SameProviders(s, After(rule, s, op))
  {
  }

  lemma {:induction false} DocumentFrame(rule: ModelRule, s: State, op: Op)
    requires IsDocumentOp(op)
    ensures SameProviders(s, After(rule, s, op))
  {
  }

  lemma {:induction false} EventFrame(s: State, event: TranslationEvent)
    requires StreamEventOf(s, event).Success?
    ensures SameProviders(s, StreamEventOf(s, event).value)
  {
  }

  lemma {:induction false} TranslationFrame(rule: ModelRule, s: State, op: Op)
    requires IsTranslationOp(op)
    ensures SameProviders(s, After(rule, s, op))
  {
    if op.StreamEvent? {
      if StreamEventOf(s, op.event).Success? { EventFrame(s, op.event); }
    } else {
      OtherTranslationFrame(rule, s, op);
    }
  }

  lemma {:induction false} OtherTranslationFrame(rule: ModelRule, s: State, op: Op)
    requires IsTranslationOp(op) && !op.StreamEvent?
    ensures SameProviders(s, After(rule, s, op))
  {
  }

  // Workspace and streaming operations touch nothing that the invariant reads.
  lemma {:induction false} WorkspaceFrame(rule: ModelRule, s: State, op: Op)
    requires IsWorkspaceOp(op)
    ensures SameProviders(s, After(rule, s, op))
  {
    if IsSettingOp(op) {
      SettingFrame(rule, s, op);
    } else if IsDocumentOp(op) {
      DocumentFrame(rule, s, op);
    } else {
      TranslationFrame(rule, s, op);
    }
  }

  predicate IsRowOp(op: Op) {
    op.UpdateHealth? || op.Restore? || op.Connected? || op.ConfirmModel? || op.ConfirmModelSaved? || op.ConfirmDeletion?
  }

  // Every public operation keeps the invariant, whatever its arguments and
  // whether or not it is accepted.
  lemma {:induction false} InvStep(rule: ModelRule, s: State, op: Op)
    requires Inv(s)
    ensures Inv(After(rule, s, op))
  {
    if IsWorkspaceOp(op) {
      WorkspaceFrame(rule, s, op);
      FrameKeeps(s, After(rule, s, op));
    } else {
      StepKeeps(rule, s, op);
    }
  }

  lemma {:induction false} StepKeeps(rule: ModelRule, s: State, op: Op)
    requires !IsWorkspaceOp(op)
    ensures Keeps(s, Step(rule, s, op))
  {
    if IsRowOp(op) {
      RowStepKeeps(rule, s, op);
    } else {
      RequestStepKeeps(rule, s, op);
    }
  }

  lemma {:induction false} RowStepKeeps(rule: ModelRule, s: State, op: Op)
    requires IsRowOp(op)
    ensures Keeps(s, Step(rule, s, op))
  {
    match op
    case UpdateHealth(profile) => UpdateHealthKeeps(s, profile);
    case Restore(rows, default) => RestoreKeeps(s, rows, default);
    case Connected(profile, models, saved) => ConnectedKeeps(rule, s, profile, models, saved);
    case ConfirmModel(model) => ConfirmModelKeeps(rule, s, model);
    case ConfirmModelSaved(id, model, saved) => ConfirmModelSavedKeeps(rule, s, id, model, saved);
    case ConfirmDeletion(id) => ConfirmDeletionKeeps(s, id);
  }

  lemma {:induction false} RequestStepKeeps(rule: ModelRule, s: State, op: Op)
    requires !IsRowOp(op) && !IsWorkspaceOp(op)
    ensures Keeps(s, Step(rule, s, op))
  {
    match op
    case StorageLost(error) => StorageLostKeeps(s, error);
    case SelectSaved(id) => SelectSavedKeeps(s, id);
    case BeginConnection(profile, remember) => BeginConnectionKeeps(s, profile, remember);
    case ConnectionFailed(profile, error) => ConnectionFailedKeeps(s, profile, error);
    case ProviderFailed(error) => ProviderFailedKeeps(s, error);
    case BeginModelSelection(model) => BeginModelSelectionKeeps(s, model);
    case ModelSelectionFailed(model, error) => ModelSelectionFailedKeeps(s, model, error);
    case BeginDeletion(id) => BeginDeletionKeeps(s, id);
    case DeletionFailed(id, error) => DeletionFailedKeeps(s, id, error);
    case SelectModel(model) => SelectModelKeeps(s, model);
  }

  // The invariant holds in every state reachable from the initial one.
  lemma {:induction false} InvRun(rule: ModelRule, s: State, ops: seq<Op>)
    requires Inv(s)
    ensures Inv(Run(rule, s, ops))
    decreases |ops|
  {
    if ops != [] {
      InvStep(rule, s, ops[0]);
      InvRun(rule, After(rule, s, ops[0]), ops[1..]);
    }
  }

  lemma {:induction false} InvReachable(rule: ModelRule, ops: seq<Op>)
    ensures Inv(Run(rule, INITIAL, ops))
  {
    InvInitial();
    InvRun(rule, INITIAL, ops);
  }
}
