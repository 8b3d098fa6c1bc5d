/**
 The client state object. Every method is proved to take exactly the step that
 Transitions gives for it and to keep the reachable-state invariant.
 */
module Client {
  import opened Wrappers
  import opened Profiles
  import opened Transitions
  import opened Invariant
  import opened Locales
  import Text

  // The fields of the object, grouped by what they describe.
  datatype SavedProfiles = SavedProfiles(
    rows: seq<Profile>,
    selectedId: Option<ProfileId>,
    persistedId: Option<ProfileId>,
    activeId: Option<ProfileId>,
    storage: StorageStatus,
    pendingDeletion: Option<ProfileId>)

  datatype Discovery = Discovery(models: seq<Model>, selected: Option<string>, pending: Option<string>)

  datatype Stream = Stream(output: string, partial: bool, usage: Option<Usage>, lastSequence: Option<U64>)

  datatype Workspace = Workspace(draft: Draft, preferences: Preferences, routingDecision: Option<string>)

  class AppState {
    // Core's rule for model identifiers.
    const rule: ModelRule

    var activeProvider: Option<Profile>
    var pendingProvider: Option<Profile>
    var pendingWillBeSaved: bool
    var saved: SavedProfiles
    var discovery: Discovery
    var stream: Stream
    var status: AppStatus
    var error: Option<TranslationError>
    var workspace: Workspace

    ghost function View(): State
      reads this
    {
      State(activeProvider, pendingProvider, saved.rows, saved.selectedId, saved.persistedId, saved.activeId,
            saved.storage, saved.pendingDeletion, pendingWillBeSaved, discovery.models, discovery.selected,
            discovery.pending, stream.output, stream.partial, stream.usage, status, error, stream.lastSequence,
            workspace.routingDecision, workspace.draft, workspace.preferences)
    }

    ghost predicate Valid()
      reads this
    {
      Inv(View())
    }

    // The object followed this outcome: it accepted and moved to the given
    // state, or refused with the given error and changed nothing.
    ghost predicate Took<T>(before: State, outcome: Outcome, result: Result<T, StateError>)
      reads this
    {
      match outcome
      case Success(next) => result.Success? && View() == next
      case Failure(refusal) => result == Failure(refusal) && View() == before
    }

    constructor (rule: ModelRule)
      ensures Valid() && View() == INITIAL && this.rule == rule
    {
      this.rule := rule;
      activeProvider, pendingProvider, pendingWillBeSaved := None, None, false;
      saved := SavedProfiles([], None, None, None, StoragePending, None);
      discovery := Discovery([], None, None);
      stream := Stream("", false, None, None);
      status, error := Disconnected, None;
      workspace := Workspace(INITIAL_DRAFT, INITIAL_PREFERENCES, None);
      new;
      InvInitial();
    }

    // ----- Saved profiles -----

    method UpdateSavedProfileHealth(profile: Profile) returns (r: Result<(), StateError>)
      modifies this
      ensures old(Valid()) ==> Valid()
      ensures Took(old(View()), UpdateHealthOf(old(View()), profile), r)
    {
      UpdateHealthKeeps(View(), profile);
      match Position(saved.rows, profile.id) {
        case None =>
          return Failure(InvalidSavedProfile);
        case Some(index) =>
          saved := saved.(rows := saved.rows[index := profile]);
          if activeProvider.Some? && activeProvider.value.id == profile.id {
            activeProvider := Some(profile);
          }
          return Success(());
      }
    }

    method RestoreSavedProfiles(rows: seq<Profile>, default: Option<ProfileId>) returns (r: Result<(), StateError>)
      modifies this
      ensures old(Valid()) ==> Valid()
      ensures Took(old(View()), RestoreOf(old(View()), rows, default), r)
    {
      RestoreKeeps(View(), rows, default);
      if status != Disconnected || activeProvider.Some? || pendingProvider.Some? || saved.pendingDeletion.Some?
         || AnySessionSecret(rows)
      {
        return Failure(InvalidSavedProfile);
      }
      var sorted := SortRows(rows);
      var unique := HasUniqueIds(sorted);
      if !unique {
        return Failure(InvalidSavedProfile);
      }
      if default.Some? {
        var row := FindRow(sorted, default.value);
        if row.None? || !row.value.enabled {
          return Failure(InvalidSavedProfile);
        }
      }
      saved := saved.(rows := sorted, selectedId := default, persistedId := default, activeId := None);
      saved := saved.(storage := StorageAvailable);
      error := None;
      return Success(());
    }

    method RestoreSavedProfile(profile: Profile) returns (r: Result<(), StateError>)
      modifies this
      ensures old(Valid()) ==> Valid()
      ensures Took(old(View()), RestoreOf(old(View()), [profile], Some(profile.id)), r)
    {
      r := RestoreSavedProfiles([profile], Some(profile.id));
    }

    method ProfileStorageUnavailable(error: TranslationError)
      modifies this
      ensures old(Valid()) ==> Valid()
      ensures View() == StorageLostOf(old(View()), error)
    {
      StorageLostKeeps(View(), error);
      saved := saved.(rows := [], selectedId := None, persistedId := None, activeId := None);
      saved := saved.(pendingDeletion := None);
      saved := saved.(storage := StorageUnavailable);
      ProviderFailed(error);
    }

    method SelectSavedProfile(id: Option<ProfileId>) returns (r: Result<(), StateError>)
      modifies this
      ensures old(Valid()) ==> Valid()
      ensures Took(old(View()), SelectSavedOf(old(View()), id), r)
    {
      SelectSavedKeeps(View(), id);
      if saved.pendingDeletion.Some? {
        return Failure(ProfileDeletionPending);
      }
      if discovery.pending.Some? {
        return Failure(ModelSelectionPending);
      }
      if status == Connecting {
        return Failure(StillConnecting);
      }
      if status.IsStreaming() {
        return Failure(Busy);
      }
      if id.Some? && FindRow(saved.rows, id.value).None? {
        return Failure(InvalidSavedProfile);
      }
      saved := saved.(selectedId := id);
      return Success(());
    }

    // ----- Provider connection -----

    method BeginProviderConnection(profile: Profile) returns (r: Result<(), StateError>)
      modifies this
      ensures old(Valid()) ==> Valid()
      ensures Took(old(View()), BeginConnectionOf(old(View()), profile, false), r)
    {
      r := BeginProviderConnectionWithPersistence(profile, false);
    }

    method BeginProviderConnectionWithPersistence(profile: Profile, remember: bool) returns (r: Result<(), StateError>)
      modifies this
      ensures old(Valid()) ==> Valid()
      ensures Took(old(View()), BeginConnectionOf(old(View()), profile, remember), r)
    {
      BeginConnectionKeeps(View(), profile, remember);
      if !profile.enabled {
        return Failure(InvalidProfile);
      }
      if status.IsStreaming() {
        return Failure(Busy);
      }
      if saved.pendingDeletion.Some? {
        return Failure(ProfileDeletionPending);
      }
      if discovery.pending.Some? {
        return Failure(ModelSelectionPending);
      }
      if status == Connecting {
        return Failure(StillConnecting);
      }
      if remember && saved.storage != StorageAvailable {
        return Failure(StateError.ProfileStorageUnavailable);
      }
      pendingProvider := Some(profile);
      pendingWillBeSaved := remember;
      status := Connecting;
      error := None;
      return Success(());
    }

    method ProviderConnected(profile: Profile, models: seq<Model>) returns (r: Result<(), StateError>)
      modifies this
      ensures old(Valid()) ==> Valid()
      ensures Took(old(View()), ConnectedOf(rule, old(View()), profile, models, None), r)
    {
      r := ProviderConnectedWithSavedProfile(profile, models, None);
    }

    method ProviderConnectedWithSavedProfile(profile: Profile, models: seq<Model>, remembered: Option<Profile>)
        returns (r: Result<(), StateError>)
      modifies this
      ensures old(Valid()) ==> Valid()
      ensures Took(old(View()), ConnectedOf(rule, old(View()), profile, models, remembered), r)
    {
      ConnectedKeeps(rule, View(), profile, models, remembered);
      if pendingProvider.None? {
        return Failure(UnexpectedProviderConnection);
      }
      var expected := Normalised(rule, pendingProvider.value, models);
      if expected != Some(profile) {
        return Failure(UnexpectedProviderConnection);
      }
      if pendingWillBeSaved != remembered.Some? || (remembered.Some? && !AcceptableSaved(profile, remembered.value)) {
        return Failure(InvalidSavedProfile);
      }
      var rows := saved.rows;
      if remembered.Some? {
        rows := Upsert(rows, remembered.value);
      }
      activeProvider := Some(profile);
      pendingProvider := None;
      pendingWillBeSaved := false;
      if remembered.Some? {
        var id := Some(remembered.value.id);
        saved := saved.(rows := rows, activeId := id, selectedId := id, persistedId := id);
      } else {
        saved := saved.(activeId := None);
      }
      discovery := Discovery(models, profile.selectedModel, None);
      status := Ready;
      error := None;
      return Success(());
    }

    method ProviderConnectionFailed(profile: Profile, error: TranslationError) returns (r: Result<(), StateError>)
      modifies this
      ensures old(Valid()) ==> Valid()
      ensures Took(old(View()), ConnectionFailedOf(old(View()), profile, error), r)
    {
      if pendingProvider != Some(profile) {
        return Failure(UnexpectedProviderConnection);
      }
      ProviderFailed(error);
      return Success(());
    }

    method ProviderFailed(error: TranslationError)
      modifies this
      ensures old(Valid()) ==> Valid()
      ensures View() == ProviderFailedOf(old(View()), error)
    {
      ProviderFailedKeeps(View(), error);
      pendingProvider := None;
      pendingWillBeSaved := false;
      if !status.IsStreaming() {
        status := if activeProvider.Some? then Ready else Failed;
      }
      this.error := Some(error);
    }

    // ----- Model selection -----

    method BeginModelSelection(model: string) returns (r: Result<(), StateError>)
      modifies this
      ensures old(Valid()) ==> Valid()
      ensures Took(old(View()), BeginModelSelectionOf(old(View()), model), r)
    {
      BeginModelSelectionKeeps(View(), model);
      if status == Connecting {
        return Failure(StillConnecting);
      }
      if status.IsStreaming() {
        return Failure(Busy);
      }
      if saved.pendingDeletion.Some? {
        return Failure(ProfileDeletionPending);
      }
      if activeProvider.None? {
        return Failure(MissingProvider);
      }
      if !HasModel(discovery.models, model) {
        return Failure(UnknownModel(model));
      }
      discovery := discovery.(pending := Some(model));
      error := None;
      return Success(());
    }

    method ConfirmModelSelection(model: string) returns (r: Result<(), StateError>)
      modifies this
      ensures old(Valid()) ==> Valid()
      ensures Took(old(View()), ConfirmModelOf(rule, old(View()), model), r)
    {
      if activeProvider.None? {
        return Failure(MissingProvider);
      }
      var id := activeProvider.value.id;
      var remembered: Option<Profile> := None;
      if saved.activeId.Some? {
        if saved.activeId.value != id {
          return Failure(InvalidSavedProfile);
        }
        var row := FindRow(saved.rows, saved.activeId.value);
        if row.None? {
          return Failure(InvalidSavedProfile);
        }
        remembered := WithSelectedModel(rule, row.value, Some(model));
        if remembered.None? {
          return Failure(InvalidSavedProfile);
        }
      }
      r := ConfirmModelSelectionWithSavedProfile(id, model, remembered);
    }

    method ConfirmModelSelectionWithSavedProfile(profileId: ProfileId, model: string, remembered: Option<Profile>)
        returns (r: Result<(), StateError>)
      modifies this
      ensures old(Valid()) ==> Valid()
      ensures Took(old(View()), ConfirmModelSavedOf(rule, old(View()), profileId, model, remembered), r)
    {
      ConfirmModelSavedKeeps(rule, View(), profileId, model, remembered);
      if activeProvider.None? {
        return Failure(MissingProvider);
      }
      if activeProvider.value.id != profileId || discovery.pending != Some(model) {
        return Failure(UnexpectedModelSelection);
      }
      if !HasModel(discovery.models, model) {
        return Failure(UnknownModel(model));
      }
      if saved.activeId.Some? != remembered.Some? {
        return Failure(InvalidSavedProfile);
      }
      if saved.activeId.Some? && (saved.activeId.value != profileId || saved.persistedId != Some(profileId)) {
        return Failure(InvalidSavedProfile);
      }
      var updated := WithSelectedModel(rule, activeProvider.value, Some(model));
      if updated.None? {
        return Failure(InvalidSavedProfile);
      }
      if remembered.Some? && !AcceptableSaved(updated.value, remembered.value) {
        return Failure(InvalidSavedProfile);
      }
      var rows := saved.rows;
      if remembered.Some? {
        if FindRow(rows, profileId).None? {
          return Failure(InvalidSavedProfile);
        }
        rows := Upsert(rows, remembered.value);
      }
      activeProvider := updated;
      discovery := discovery.(selected := Some(model));
      discovery := discovery.(pending := None);
      if remembered.Some? {
        saved := saved.(rows := rows);
      }
      return Success(());
    }

    method ModelSelectionFailed(model: string, error: TranslationError) returns (r: Result<(), StateError>)
      modifies this
      ensures old(Valid()) ==> Valid()
      ensures Took(old(View()), ModelSelectionFailedOf(old(View()), model, error), r)
    {
      ModelSelectionFailedKeeps(View(), model, error);
      if discovery.pending != Some(model) {
        return Failure(UnexpectedModelSelection);
      }
      discovery := discovery.(pending := None);
      this.error := Some(error);
      return Success(());
    }

    method SelectModel(model: string) returns (r: Result<(), StateError>)
      modifies this
      ensures old(Valid()) ==> Valid()
      ensures Took(old(View()), SelectModelOf(old(View()), model), r)
    {
      SelectModelKeeps(View(), model);
      if HasModel(discovery.models, model) {
        discovery := discovery.(selected := Some(model));
        discovery := discovery.(pending := None);
        return Success(());
      } else {
        return Failure(UnknownModel(model));
      }
    }

    // ----- Deletion -----

    method BeginProfileDeletion(id: ProfileId) returns (r: Result<(), StateError>)
      modifies this
      ensures old(Valid()) ==> Valid()
      ensures Took(old(View()), BeginDeletionOf(old(View()), id), r)
    {
      BeginDeletionKeeps(View(), id);
      if saved.storage != StorageAvailable {
        return Failure(StateError.ProfileStorageUnavailable);
      }
      if saved.pendingDeletion.Some? {
        return Failure(ProfileDeletionPending);
      }
      if status == Connecting {
        return Failure(StillConnecting);
      }
      if status.IsStreaming() {
        return Failure(Busy);
      }
      if discovery.pending.Some? {
        return Failure(ModelSelectionPending);
      }
      if FindRow(saved.rows, id).None? {
        return Failure(InvalidSavedProfile);
      }
      saved := saved.(pendingDeletion := Some(id));
      error := None;
      return Success(());
    }

    method ConfirmProfileDeletion(id: ProfileId) returns (r: Result<(), StateError>)
      modifies this
      ensures old(Valid()) ==> Valid()
      ensures Took(old(View()), ConfirmDeletionOf(old(View()), id), r)
    {
      ConfirmDeletionKeeps(View(), id);
      if saved.pendingDeletion != Some(id) {
        return Failure(UnexpectedProfileDeletion);
      }
      match Position(saved.rows, id) {
        case None =>
          return Failure(UnexpectedProfileDeletion);
        case Some(index) =>
          saved := saved.(rows := RemoveAt(saved.rows, index));
          if saved.selectedId == Some(id) {
            saved := saved.(selectedId := None);
          }
          if saved.persistedId == Some(id) {
            saved := saved.(persistedId := None);
          }
          if saved.activeId == Some(id) {
            saved := saved.(activeId := None);
          }
          saved := saved.(pendingDeletion := None);
          error := None;
          return Success(());
      }
    }

    method ProfileDeletionFailed(id: ProfileId, error: TranslationError) returns (r: Result<(), StateError>)
      modifies this
      ensures old(Valid()) ==> Valid()
      ensures Took(old(View()), DeletionFailedOf(old(View()), id, error), r)
    {
      DeletionFailedKeeps(View(), id, error);
      if saved.pendingDeletion != Some(id) {
        return Failure(UnexpectedProfileDeletion);
      }
      saved := saved.(pendingDeletion := None);
      this.error := Some(error);
      return Success(());
    }

    // ----- Workspace, settings and documents -----

    // The request inputs.

    method SetSourceText(text: string)
      modifies this
      ensures old(Valid()) ==> Valid()
      ensures View() == old(View()).(draft := old(View()).draft.(sourceText := text))
    {
      workspace := workspace.(draft := workspace.draft.(sourceText := text));
    }

    method SetSourceLocale(locale: Option<string>)
      modifies this
      ensures old(Valid()) ==> Valid()
      ensures View() == old(View()).(draft := old(View()).draft.(sourceLocale := locale))
    {
      workspace := workspace.(draft := workspace.draft.(sourceLocale := locale));
    }

    method SetTargetLocale(locale: string)
      modifies this
      ensures old(Valid()) ==> Valid()
      ensures View() == old(View()).(draft := old(View()).draft.(targetLocale := locale))
    {
      workspace := workspace.(draft := workspace.draft.(targetLocale := locale));
    }

    method SetGlossary(glossary: Option<string>)
      modifies this
      ensures old(Valid()) ==> Valid()
      ensures View() == old(View()).(draft := old(View()).draft.(glossary := glossary))
    {
      workspace := workspace.(draft := workspace.draft.(glossary := glossary));
    }

    method SetPrivacyMode(privacy: PrivacyMode)
      modifies this
      ensures old(Valid()) ==> Valid()
      ensures View() == old(View()).(draft := old(View()).draft.(privacy := privacy))
    {
      workspace := workspace.(draft := workspace.draft.(privacy := privacy));
    }

    method SetQualityMode(quality: string)
      modifies this
      ensures old(Valid()) ==> Valid()
      ensures View() == old(View()).(draft := old(View()).draft.(quality := quality))
    {
      workspace := workspace.(draft := workspace.draft.(quality := quality));
    }

    method SetTranslationPreset(preset: string)
      modifies this
      ensures old(Valid()) ==> Valid()
      ensures View() == old(View()).(draft := old(View()).draft.(preset := preset))
    {
      workspace := workspace.(draft := workspace.draft.(preset := preset));
    }

    // Worker status, counters and appearance.

    method MarkWorkerReady()
      modifies this
      ensures old(Valid()) ==> Valid()
      ensures View() == old(View()).(preferences := old(View()).preferences.(workerStartup := WorkerReady))
    {
      workspace := workspace.(preferences := workspace.preferences.(workerStartup := WorkerReady));
    }

    method MarkWorkerUnavailable()
      modifies this
      ensures old(Valid()) ==> Valid()
      ensures View() == old(View()).(preferences := old(View()).preferences.(workerStartup := WorkerFailed))
    {
      workspace := workspace.(preferences := workspace.preferences.(workerStartup := WorkerFailed));
    }

    method RestoreTranslationHistoryCount(count: nat)
      modifies this
      ensures old(Valid()) ==> Valid()
      ensures View() == old(View()).(preferences := old(View()).preferences.(historyCount := count))
    {
      workspace := workspace.(preferences := workspace.preferences.(historyCount := count));
    }

    method ClearTranslationHistoryCount()
      modifies this
      ensures old(Valid()) ==> Valid()
      ensures View() == old(View()).(preferences := old(View()).preferences.(historyCount := 0))
    {
      workspace := workspace.(preferences := workspace.preferences.(historyCount := 0));
    }

    method RestoreTranslationHistoryEnabled(enabled: bool)
      modifies this
      ensures old(Valid()) ==> Valid()
      ensures View() == old(View()).(preferences := old(View()).preferences.(historyEnabled := enabled))
    {
      workspace := workspace.(preferences := workspace.preferences.(historyEnabled := enabled));
    }

    method RestoreTranslationMemoryCount(count: nat)
      modifies this
      ensures old(Valid()) ==> Valid()
      ensures View() == old(View()).(preferences := old(View()).preferences.(memoryCount := count))
    {
      workspace := workspace.(preferences := workspace.preferences.(memoryCount := count));
    }

    method ClearTranslationMemoryCount()
      modifies this
      ensures old(Valid()) ==> Valid()
      ensures View() == old(View()).(preferences := old(View()).preferences.(memoryCount := 0))
    {
      workspace := workspace.(preferences := workspace.preferences.(memoryCount := 0));
    }

    method RestoreTranslationMemoryEnabled(enabled: bool)
      modifies this
      ensures old(Valid()) ==> Valid()
      ensures View() == old(View()).(preferences := old(View()).preferences.(memoryEnabled := enabled))
    {
      workspace := workspace.(preferences := workspace.preferences.(memoryEnabled := enabled));
    }

    method SetTheme(theme: ThemePreference)
      modifies this
      ensures old(Valid()) ==> Valid()
      ensures View() == old(View()).(preferences := old(View()).preferences.(theme := theme))
    {
      workspace := workspace.(preferences := workspace.preferences.(theme := theme));
    }

    method SetLocale(locale: UiLocale)
      modifies this
      ensures old(Valid()) ==> Valid()
      ensures View() == old(View()).(preferences := old(View()).preferences.(locale := locale))
    {
      workspace := workspace.(preferences := workspace.preferences.(locale := locale));
    }

    method RecordRoutingDecision(decision: string)
      modifies this
      ensures old(Valid()) ==> Valid()
      ensures View() == old(View()).(routingDecision := Some(decision))
    {
      workspace := workspace.(routingDecision := Some(decision));
    }

    method ClearWorkspace()
      modifies this
      ensures old(Valid()) ==> Valid()
      ensures View() == ClearWorkspaceOf(old(View()))
    {
      ClearWorkspaceKeeps(View());
      workspace := workspace.(draft := workspace.draft.(sourceText := ""));
      stream := Stream("", false, None, None);
      error := None;
      workspace := workspace.(routingDecision := None);
      status := if activeProvider.Some? then Ready else Disconnected;
    }

    method SetDocumentOutput(text: string)
      modifies this
      ensures old(Valid()) ==> Valid()
      ensures View() == SetDocumentOutputOf(old(View()), text)
    {
      stream := stream.(output := text);
      stream := stream.(partial := true);
    }

    method CompleteDocumentTranslation(text: string)
      modifies this
      ensures old(Valid()) ==> Valid()
      ensures View() == CompleteDocumentOf(old(View()), text)
    {
      stream := stream.(output := text);
      stream := stream.(partial := false);
      status := Completed;
      error := None;
    }

    method CancelDocumentTranslation(text: string)
      modifies this
      ensures old(Valid()) ==> Valid()
      ensures View() == CancelDocumentOf(old(View()), text)
    {
      stream := stream.(output := text);
      stream := stream.(partial := stream.output != "");
      status := Cancelled;
    }

    method PauseDocumentTranslation(text: string)
      modifies this
      ensures old(Valid()) ==> Valid()
      ensures View() == PauseDocumentOf(old(View()), text)
    {
      stream := stream.(output := text);
      stream := stream.(partial := stream.output != "");
      status := Ready;
      error := None;
    }

    method FailDocumentTranslation(text: string, error: TranslationError)
      modifies this
      ensures old(Valid()) ==> Valid()
      ensures View() == FailDocumentOf(old(View()), text, error)
    {
      stream := stream.(output := text);
      stream := stream.(partial := stream.output != "");
      status := Failed;
      this.error := Some(error);
    }

    // ----- Streaming -----

    // The guards that the text request and the document job share.
    method RefuseBegin() returns (refusal: Option<StateError>)
      ensures refusal == BeginRefusal(View())
    {
      if status == Connecting {
        return Some(StillConnecting);
      }
      if status.IsStreaming() {
        return Some(Busy);
      }
      if discovery.pending.Some? {
        return Some(ModelSelectionPending);
      }
      if saved.pendingDeletion.Some? {
        return Some(ProfileDeletionPending);
      }
      return if activeProvider.None? then Some(MissingProvider) else None;
    }

    method BeginTranslation() returns (r: Result<TranslationRequest, StateError>)
      modifies this
      ensures old(Valid()) ==> Valid()
      ensures Took(old(View()), BeginTranslationOf(old(View())), r)
      ensures r.Success? ==> old(View()).selectedModel.Some? && r.value == RequestOf(old(View()))
      ensures r.Success? ==>
                var inputs := old(View()).draft;
                && r.value.sourceText == inputs.sourceText && r.value.sourceLocale == inputs.sourceLocale
                && r.value.targetLocale == inputs.targetLocale && r.value.glossary == inputs.glossary
                && r.value.privacy == inputs.privacy && r.value.quality == inputs.quality
                && r.value.preset == inputs.preset && Some(r.value.modelId) == old(View()).selectedModel
    {
      var refusal := RefuseBegin();
      if refusal.Some? {
        return Failure(refusal.value);
      }
      Text.TrimOfBlank(workspace.draft.sourceText);
      if Text.Trim(Text.IsWhitespace, workspace.draft.sourceText) == "" {
        return Failure(MissingSource);
      }
      if discovery.selected.None? {
        return Failure(MissingModel);
      }
      var draft := workspace.draft;
      var request := TranslationRequest(
        draft.sourceText, draft.targetLocale, discovery.selected.value, draft.sourceLocale, draft.glossary,
        draft.privacy, draft.quality, draft.preset);
      ResetStream();
      return Success(request);
    }

    method BeginDocumentTranslation() returns (r: Result<(), StateError>)
      modifies this
      ensures old(Valid()) ==> Valid()
      ensures Took(old(View()), BeginDocumentOf(old(View())), r)
    {
      var refusal := RefuseBegin();
      if refusal.Some? {
        return Failure(refusal.value);
      }
      if discovery.selected.None? {
        return Failure(MissingModel);
      }
      ResetStream();
      return Success(());
    }

    method ResetStream()
      modifies this
      ensures View() == StartedFrom(old(View()))
    {
      stream := Stream("", false, None, None);
      error := None;
      status := Translating;
    }

    method RequestCancellation() returns (r: Result<(), StateError>)
      modifies this
      ensures old(Valid()) ==> Valid()
      ensures Took(old(View()), RequestCancellationOf(old(View())), r)
    {
      if status != Translating {
        return Failure(Busy);
      }
      status := Cancelling;
      return Success(());
    }

    method ApplyTranslationEvent(event: TranslationEvent) returns (r: Result<(), StateError>)
      modifies this
      ensures old(Valid()) ==> Valid()
      ensures Took(old(View()), StreamEventOf(old(View()), event), r)
    {
      StreamEventKeeps(View(), event);
      if status.IsTerminal() {
        return Failure(EventAfterTerminal);
      }
      if stream.lastSequence.None? && !event.Started? {
        return Failure(UnexpectedFirstEvent);
      }
      if stream.lastSequence.Some? && event.Started? {
        return Failure(UnexpectedStartedEvent);
      }
      if stream.lastSequence.Some? && event.sequence <= stream.lastSequence.value {
        return Failure(NonIncreasingSequence);
      }
      stream := stream.(lastSequence := Some(event.sequence));
      match event {
        case Started(_) =>
          if status != Cancelling {
            status := Translating;
          }
        case TextDelta(_, text) =>
          stream := stream.(output := stream.output + text);
          stream := stream.(partial := true);
        case CompletedEvent(_, eventUsage) =>
          stream := stream.(usage := eventUsage);
          status := Completed;
          stream := stream.(partial := false);
        case CancelledEvent(_) =>
          status := Cancelled;
          stream := stream.(partial := stream.output != "");
        case FailedEvent(_, eventError) =>
          status := Failed;
          stream := stream.(partial := stream.output != "");
          error := Some(eventError);
      }
      return Success(());
    }

    method RecordClientError(message: string)
      modifies this
      ensures old(Valid()) ==> Valid()
      ensures View() == ClientErrorOf(old(View()), message)
    {
      status := Failed;
      error := Some(InternalError(message));
    }

    method RecordStreamError(message: string)
      modifies this
      ensures old(Valid()) ==> Valid()
      ensures View() == StreamErrorOf(old(View()), message)
    {
      status := Cancelling;
      stream := stream.(partial := stream.output != "");
      error := Some(InternalError(message));
    }

    method RecordOperationFailure(error: TranslationError)
      modifies this
      ensures old(Valid()) ==> Valid()
      ensures View() == OperationFailureOf(old(View()), error)
    {
      status := Failed;
      stream := stream.(partial := stream.output != "");
      this.error := Some(error);
    }
  }

  // The duplicate search of `restore_saved_profiles`, which stops at the first
  // identifier it has already seen.
  method HasUniqueIds(rows: seq<Profile>) returns (unique: bool)
    ensures unique <==> UniqueIds(rows)
  {
    var seen: set<ProfileId> := {};
    for i := 0 to |rows|
      invariant seen == set k | 0 <= k < i :: rows[k].id
      invariant UniqueIds(rows[..i])
    {
      if rows[i].id in seen {
        return false;
      }
      assert rows[..i + 1] == rows[..i] + [rows[i]];
      seen := seen + {rows[i].id};
    }
    assert rows[..|rows|] == rows;
    return true;
  }
}
