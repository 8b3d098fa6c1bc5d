/**
 When calls are accepted and what a refusal says. Each call makes its checks in a
 fixed order, and the first that fails is reported.
 */
module Guards {
  import opened Wrappers
  import opened Profiles
  import opened Transitions
  import opened SavedRows
  import opened RowUpdates
  import opened Invariant
  import Text

  // The error that is reported, or None when all checks hold.
  type Refusal = Option<StateError>

  function Check(holds: bool, error: StateError, next: Refusal): Refusal {
    if holds then next else Some(error)
  }

  // ----- The checks that calls share -----

  function NotConnecting(s: State, next: Refusal): Refusal {
    Check(s.status != Connecting, StillConnecting, next)
  }

  function NotStreaming(s: State, next: Refusal): Refusal {
    Check(s.status != Translating && s.status != Cancelling, Busy, next)
  }

  function NoModelPending(s: State, next: Refusal): Refusal {
    Check(s.pendingModel == None, ModelSelectionPending, next)
  }

  function NoDeletionPending(s: State, next: Refusal): Refusal {
    Check(s.pendingDeletion == None, ProfileDeletionPending, next)
  }

  function HasProvider(s: State, next: Refusal): Refusal {
    Check(s.activeProvider != None, MissingProvider, next)
  }

  function HasRow(s: State, id: ProfileId, error: StateError, next: Refusal): Refusal {
    Check(HasId(s.savedProfiles, id), error, next)
  }

  function IsDiscovered(s: State, model: string, next: Refusal): Refusal {
    Check(exists i :: 0 <= i < |s.models| && s.models[i].id == model, UnknownModel(model), next)
  }

  // ----- Saved profiles -----

  predicate IsEnabledRow(rows: seq<Profile>, id: ProfileId) {
    exists p :: p in rows && p.id == id && p.enabled
  }

  // What restored rows must be: distinct, without session secrets, and with an
  // enabled default.
  predicate IsRestorable(rows: seq<Profile>, default: Option<ProfileId>) {
    && (forall p :: p in rows && p.secret.Some? ==> p.secret.value.Persistent?)
    && UniqueIds(rows)
    && (default.Some? ==> IsEnabledRow(rows, default.value))
  }

  function SavedRefusal(s: State, op: Op): Refusal {
    match op
    case UpdateHealth(profile) => HasRow(s, profile.id, InvalidSavedProfile, None)
    case Restore(rows, default) =>
      Check(s.status == Disconnected && s.activeProvider == s.pendingProvider == None && s.pendingDeletion == None,
            InvalidSavedProfile,
            Check(IsRestorable(rows, default), InvalidSavedProfile, None))
    case SelectSaved(id) =>
      NoDeletionPending(s, NoModelPending(s, NotConnecting(s, NotStreaming(s,
        if id.Some? then HasRow(s, id.value, InvalidSavedProfile, None) else None))))
    case BeginDeletion(id) =>
      Check(s.storage == StorageAvailable, ProfileStorageUnavailable,
            NoDeletionPending(s, NotConnecting(s, NotStreaming(s, NoModelPending(s,
              HasRow(s, id, InvalidSavedProfile, None))))))
    case ConfirmDeletion(id) =>
      Check(s.pendingDeletion == Some(id), UnexpectedProfileDeletion, HasRow(s, id, UnexpectedProfileDeletion, None))
    case DeletionFailed(id, _) => Check(s.pendingDeletion == Some(id), UnexpectedProfileDeletion, None)
    case _ => None
  }

  // ----- Connections -----

  // The profile as requested, but without a model that discovery did not find; a
  // model that it keeps must be one that Core accepts.
  predicate IsOwnResult(rule: ModelRule, pending: Profile, profile: Profile, models: seq<Model>) {
    && profile == pending.(selectedModel := profile.selectedModel)
    && (if pending.selectedModel.Some? && HasModel(models, pending.selectedModel.value)
        then profile.selectedModel == pending.selectedModel && rule(pending.selectedModel.value)
        else profile.selectedModel == None)
  }

  // A row that may be saved for the profile: it differs at most in its secret,
  // which is not a session secret, and in what is not compared.
  predicate IsCounterpart(profile: Profile, row: Profile) {
    && (row.secret.Some? ==> row.secret.value.Persistent?)
    && row.(secret := profile.secret, rest := profile.rest) == profile
  }

  function ConnectionRefusal(rule: ModelRule, s: State, op: Op): Refusal {
    match op
    case BeginConnection(profile, remember) =>
      Check(profile.enabled, InvalidProfile,
            NotStreaming(s, NoDeletionPending(s, NoModelPending(s, NotConnecting(s,
              Check(remember ==> s.storage == StorageAvailable, ProfileStorageUnavailable, None))))))
    case Connected(profile, models, saved) =>
      Check(s.pendingProvider.Some? && IsOwnResult(rule, s.pendingProvider.value, profile, models),
            UnexpectedProviderConnection,
            Check((s.pendingWillBeSaved <==> saved != None) && (saved.Some? ==> IsCounterpart(profile, saved.value)),
                  InvalidSavedProfile, None))
    case ConnectionFailed(profile, _) =>
      Check(s.pendingProvider == Some(profile), UnexpectedProviderConnection, None)
    case _ => None
  }

  // ----- Models -----

  function ConfirmationRefusal(
    rule: ModelRule, s: State, id: ProfileId, model: string, saved: Option<Profile>): Refusal
  {
    if s.activeProvider.None? then Some(MissingProvider)
    else
      var provider := s.activeProvider.value;
      Check(provider.id == id && s.pendingModel == Some(model), UnexpectedModelSelection,
            IsDiscovered(s, model,
              Check((s.activeSavedId != None <==> saved != None)
                    && (s.activeSavedId.Some? ==> s.activeSavedId == s.persistedActiveId == Some(id))
                    && rule(model)
                    && (saved.Some? ==>
                          && IsCounterpart(provider.(selectedModel := Some(model)), saved.value)
                          && HasId(s.savedProfiles, id)),
                    InvalidSavedProfile, None)))
  }

  function ModelRefusal(rule: ModelRule, s: State, op: Op): Refusal {
    match op
    case BeginModelSelection(model) =>
      NotConnecting(s, NotStreaming(s, NoDeletionPending(s, HasProvider(s, IsDiscovered(s, model, None)))))
    case ConfirmModelSaved(id, model, saved) => ConfirmationRefusal(rule, s, id, model, saved)
    case ConfirmModel(model) =>
      if s.activeProvider.None? then Some(MissingProvider)
      else
        var id := s.activeProvider.value.id;
        Check(s.activeSavedId.Some? ==> s.activeSavedId.value == id && HasId(s.savedProfiles, id) && rule(model),
              InvalidSavedProfile,
              ConfirmationRefusal(rule, s, id, model, SuppliedRow(rule, s, model)))
    case ModelSelectionFailed(model, _) => Check(s.pendingModel == Some(model), UnexpectedModelSelection, None)
    case SelectModel(model) => IsDiscovered(s, model, None)
    case _ => None
  }

  // ----- Work -----

  predicate HasText(text: string) {
    exists i :: 0 <= i < |text| && !Text.IsWhitespace(text[i])
  }

  function BeginChecks(s: State, next: Refusal): Refusal {
    NotConnecting(s, NotStreaming(s, NoModelPending(s, NoDeletionPending(s, HasProvider(s, next)))))
  }

  function WorkRefusal(s: State, op: Op): Refusal {
    match op
    case BeginTranslation =>
      BeginChecks(s, Check(HasText(s.draft.sourceText), MissingSource,
        Check(s.selectedModel != None, MissingModel, None)))
    case BeginDocument => BeginChecks(s, Check(s.selectedModel != None, MissingModel, None))
    case RequestCancellation => Check(s.status == Translating, Busy, None)
    case StreamEvent(event) =>
      Check(s.status != Completed && s.status != Cancelled && s.status != Failed, EventAfterTerminal,
        Check(s.lastSequence == None ==> event.Started?, UnexpectedFirstEvent,
          Check(event.Started? ==> s.lastSequence == None, UnexpectedStartedEvent,
            Check(s.lastSequence.Some? ==> s.lastSequence.value < event.sequence, NonIncreasingSequence, None))))
    case _ => None
  }

  // ----- Every call -----

  predicate IsModelOp(op: Op) {
    op.BeginModelSelection? || op.ConfirmModel? || op.ConfirmModelSaved? || op.ModelSelectionFailed? || op.SelectModel?
  }

  predicate IsConnectionCall(op: Op) {
    op.BeginConnection? || op.Connected? || op.ConnectionFailed? || op.ProviderFailed?
  }

  function RefusalOf(rule: ModelRule, s: State, op: Op): Refusal {
    if IsModelOp(op) then ModelRefusal(rule, s, op)
    else if IsConnectionCall(op) then ConnectionRefusal(rule, s, op)
    else if IsWorkspaceOp(op) then WorkRefusal(s, op)
    else SavedRefusal(s, op)
  }

  predicate Decides(refusal: Refusal, outcome: Outcome) {
    match refusal
    case None => outcome.Success?
    case Some(error) => outcome == Failure(error)
  }

  lemma {:induction false} SavedDecided(rule: ModelRule, s: State, op: Op)
    requires !IsModelOp(op) && !IsConnectionCall(op) && !IsWorkspaceOp(op)
    ensures Decides(SavedRefusal(s, op), Step(rule, s, op))
  {
    if op.Restore? {
      RestoreDecided(s, op.rows, op.default);
    }
  }

  lemma {:induction false} RestoreDecided(s: State, rows: seq<Profile>, default: Option<ProfileId>)
    ensures Decides(SavedRefusal(s, Restore(rows, default)), RestoreOf(s, rows, default))
  {
    SortKeepsRows(rows);
    SessionSecretRow(rows);
    if UniqueIds(rows) && default.Some? {
      DefaultRow(rows, default.value);
    }
  }

  // The search in the sorted rows finds an enabled row exactly if there is one.
  lemma {:induction false} DefaultRow(rows: seq<Profile>, id: ProfileId)
    requires UniqueIds(rows)
    ensures var row := FindRow(SortRows(rows), id);
            row.Some? && row.value.enabled <==> IsEnabledRow(rows, id)
  {
    SortKeepsRows(rows);
    FindRowIsLookup(SortRows(rows), id);
  }

  lemma {:induction false} ConnectionDecided(rule: ModelRule, s: State, op: Op)
    requires IsConnectionCall(op)
    ensures Decides(ConnectionRefusal(rule, s, op), Step(rule, s, op))
  {
  }

  lemma {:induction false} ConfirmationDecided(
      rule: ModelRule, s: State, id: ProfileId, model: string, saved: Option<Profile>)
    ensures Decides(ConfirmationRefusal(rule, s, id, model, saved), ConfirmModelSavedOf(rule, s, id, model, saved))
  {
  }

  lemma {:induction false} ModelDecided(rule: ModelRule, s: State, op: Op)
    requires IsModelOp(op)
    ensures Decides(ModelRefusal(rule, s, op), Step(rule, s, op))
  {
    match op
    case ConfirmModelSaved(id, model, saved) => ConfirmationDecided(rule, s, id, model, saved);
    case ConfirmModel(model) =>
      if s.activeProvider.Some? {
        ConfirmationDecided(rule, s, s.activeProvider.value.id, model, SuppliedRow(rule, s, model));
      }
    case _ =>
  }

  lemma {:induction false} WorkDecided(rule: ModelRule, s: State, op: Op)
    requires IsWorkspaceOp(op)
    ensures Decides(WorkRefusal(s, op), Step(rule, s, op))
  {
  }

  // Every call is accepted exactly when none of its checks fails, and otherwise
  // refused with the error of the first that does.
  lemma {:induction false} RefusedExactly(rule: ModelRule, s: State, op: Op)
    ensures Decides(RefusalOf(rule, s, op), Step(rule, s, op))
  {
    if IsModelOp(op) {
      ModelDecided(rule, s, op);
    } else if IsConnectionCall(op) {
      ConnectionDecided(rule, s, op);
    } else if IsWorkspaceOp(op) {
      WorkDecided(rule, s, op);
    } else {
      SavedDecided(rule, s, op);
    }
  }
}
