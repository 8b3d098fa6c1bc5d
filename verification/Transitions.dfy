/**
 The client state and, for every public operation that changes it, the new state
 or the reason for refusing. The class in Client.dfy is proved to follow these
 functions; the other modules prove what they promise over whole runs.
 */
module Transitions {
  import opened Wrappers
  import opened Profiles
  import opened Locales
  import Text

  // ----- Data -----

  type U64 = n: nat | n < 0x1_0000_0000_0000_0000

  const U64_MAX: U64 := 0xFFFF_FFFF_FFFF_FFFF

  datatype AppStatus =
    | Disconnected
    | Connecting
    | Ready
    | Translating
    | Cancelling
    | Completed
    | Cancelled
    | Failed
  {
    predicate IsTerminal() {
      Completed? || Cancelled? || Failed?
    }

    predicate IsStreaming() {
      Translating? || Cancelling?
    }
  }

  datatype StorageStatus = StoragePending | StorageAvailable | StorageUnavailable

  datatype WorkerStartup = WorkerPending | WorkerReady | WorkerFailed

  datatype ThemePreference = SystemTheme | LightTheme | DarkTheme

  datatype ErrorKind =
    | CancelledError | InvalidEndpoint | Network | Timeout | Authentication | RateLimited
    | ModelUnavailable | MalformedResponse | Persistence | ProtocolIncompatible
    | InvalidConfiguration | UnsupportedCapability | SecretUnavailable | SecureStorageUnavailable
    | Internal

  datatype TranslationError = TranslationError(kind: ErrorKind, message: string, retryAfterMs: Option<nat>)

  function InternalError(message: string): TranslationError {
    TranslationError(Internal, message, None)
  }

  datatype StateError =
    | MissingSource
    | MissingModel
    | UnknownModel(id: string)
    | ModelSelectionPending
    | UnexpectedModelSelection
    | InvalidProfile
    | MissingProvider
    | UnexpectedProviderConnection
    | Busy
    | StillConnecting
    | InvalidSavedProfile
    | ProfileStorageUnavailable
    | ProfileDeletionPending
    | UnexpectedProfileDeletion
    | UnexpectedFirstEvent
    | UnexpectedStartedEvent
    | NonIncreasingSequence
    | EventAfterTerminal

  datatype PrivacyMode = Standard | Incognito

  // The inputs of the next request. Glossary, quality mode and preset are
  // opaque Core values.
  datatype Draft = Draft(
    sourceText: string,
    sourceLocale: Option<string>,
    targetLocale: string,
    glossary: Option<string>,
    privacy: PrivacyMode,
    quality: string,
    preset: string)

  // Settings that no transition reads.
  datatype Preferences = Preferences(
    workerStartup: WorkerStartup,
    historyCount: nat,
    historyEnabled: bool,
    memoryCount: nat,
    memoryEnabled: bool,
    theme: ThemePreference,
    locale: UiLocale)

  // One request input, and the draft with it.
  datatype Input =
    | SourceText(text: string)
    | SourceLocale(source: Option<string>)
    | TargetLocale(target: string)
    | GlossaryInput(glossary: Option<string>)
    | PrivacyInput(privacy: PrivacyMode)
    | QualityInput(quality: string)
    | PresetInput(preset: string)

  function WithInput(draft: Draft, input: Input): Draft {
    match input
    case SourceText(text) => draft.(sourceText := text)
    case SourceLocale(source) => draft.(sourceLocale := source)
    case TargetLocale(target) => draft.(targetLocale := target)
    case GlossaryInput(glossary) => draft.(glossary := glossary)
    case PrivacyInput(privacy) => draft.(privacy := privacy)
    case QualityInput(quality) => draft.(quality := quality)
    case PresetInput(preset) => draft.(preset := preset)
  }

  // One setting, and the preferences with it.
  datatype Preference =
    | WorkerMarked(ready: bool)
    | HistoryCount(count: nat)
    | HistoryEnabled(enabled: bool)
    | MemoryCount(count: nat)
    | MemoryEnabled(enabled: bool)
    | Theme(theme: ThemePreference)
    | Locale(locale: UiLocale)

  function WithPreference(preferences: Preferences, preference: Preference): Preferences {
    match preference
    case WorkerMarked(ready) => preferences.(workerStartup := if ready then WorkerReady else WorkerFailed)
    case HistoryCount(count) => preferences.(historyCount := count)
    case HistoryEnabled(enabled) => preferences.(historyEnabled := enabled)
    case MemoryCount(count) => preferences.(memoryCount := count)
    case MemoryEnabled(enabled) => preferences.(memoryEnabled := enabled)
    case Theme(theme) => preferences.(theme := theme)
    case Locale(locale) => preferences.(locale := locale)
  }

  datatype Usage = Usage(inputTokens: nat, outputTokens: nat, source: string)

  datatype TranslationEvent =
    | Started(sequence: U64)
    | TextDelta(sequence: U64, text: string)
    | CompletedEvent(sequence: U64, usage: Option<Usage>)
    | CancelledEvent(sequence: U64)
    | FailedEvent(sequence: U64, error: TranslationError)
  {
    predicate IsTerminal() {
      CompletedEvent? || CancelledEvent? || FailedEvent?
    }
  }

  datatype TranslationRequest = TranslationRequest(
    sourceText: string,
    targetLocale: string,
    modelId: string,
    sourceLocale: Option<string>,
    glossary: Option<string>,
    privacy: PrivacyMode,
    quality: string,
    preset: string)

  datatype State = State(
    activeProvider: Option<Profile>,
    pendingProvider: Option<Profile>,
    savedProfiles: seq<Profile>,
    selectedSavedId: Option<ProfileId>,
    persistedActiveId: Option<ProfileId>,
    activeSavedId: Option<ProfileId>,
    storage: StorageStatus,
    pendingDeletion: Option<ProfileId>,
    pendingWillBeSaved: bool,
    models: seq<Model>,
    selectedModel: Option<string>,
    pendingModel: Option<string>,
    output: string,
    partialOutput: bool,
    usage: Option<Usage>,
    status: AppStatus,
    error: Option<TranslationError>,
    lastSequence: Option<U64>,
    routingDecision: Option<string>,
    draft: Draft,
    preferences: Preferences)

  const INITIAL_DRAFT := Draft("", None, "zh-CN", None, Standard, "balanced", "general")

  const INITIAL_PREFERENCES := Preferences(WorkerPending, 0, true, 0, true, SystemTheme, English)

  const INITIAL := State(
    None, None, [], None, None, None, StoragePending, None, false, [], None, None,
    "", false, None, Disconnected, None, None, None, INITIAL_DRAFT, INITIAL_PREFERENCES)

  datatype Op =
    | UpdateHealth(profile: Profile)
    | Restore(rows: seq<Profile>, default: Option<ProfileId>)
    | StorageLost(error: TranslationError)
    | SelectSaved(id: Option<ProfileId>)
    | BeginConnection(profile: Profile, remember: bool)
    | Connected(profile: Profile, models: seq<Model>, saved: Option<Profile>)
    | ConnectionFailed(profile: Profile, error: TranslationError)
    | ProviderFailed(error: TranslationError)
    | BeginModelSelection(model: string)
    | ConfirmModel(model: string)
    | ConfirmModelSaved(profileId: ProfileId, model: string, saved: Option<Profile>)
    | ModelSelectionFailed(model: string, error: TranslationError)
    | BeginDeletion(profileId: ProfileId)
    | ConfirmDeletion(profileId: ProfileId)
    | DeletionFailed(profileId: ProfileId, error: TranslationError)
    | SelectModel(model: string)
    | SetInput(input: Input)
    | SetPreference(preference: Preference)
    | RecordRouting(decision: string)
    | ClearWorkspace
    | BeginTranslation
    | BeginDocument
    | SetDocumentOutput(text: string)
    | CompleteDocument(text: string)
    | CancelDocument(text: string)
    | PauseDocument(text: string)
    | FailDocument(text: string, error: TranslationError)
    | RequestCancellation
    | StreamEvent(event: TranslationEvent)
    | RecordClientError(message: string)
    | RecordStreamError(message: string)
    | RecordOperationFailure(error: TranslationError)

  type Outcome = Result<State, StateError>

  // ----- Saved profiles -----

  function UpdateHealthOf(s: State, profile: Profile): Outcome {
    match Position(s.savedProfiles, profile.id)
    case None => Failure(InvalidSavedProfile)
    case Some(index) =>
      Success(s.(savedProfiles := s.savedProfiles[index := profile],
                 activeProvider := if s.activeProvider.Some? && s.activeProvider.value.id == profile.id
                                   then Some(profile) else s.activeProvider))
  }

  predicate AnySessionSecret(rows: seq<Profile>) {
    exists i :: 0 <= i < |rows| && HasSessionSecret(rows[i])
  }

  function RestoreOf(s: State, rows: seq<Profile>, default: Option<ProfileId>): Outcome {
    if s.status != Disconnected || s.activeProvider.Some? || s.pendingProvider.Some? || s.pendingDeletion.Some?
       || AnySessionSecret(rows) then Failure(InvalidSavedProfile)
    else
      var sorted := SortRows(rows);
      if !UniqueIds(sorted) then Failure(InvalidSavedProfile)
      else if default.Some? && (FindRow(sorted, default.value).None? || !FindRow(sorted, default.value).value.enabled)
      then Failure(InvalidSavedProfile)
      else
        Success(s.(savedProfiles := sorted, selectedSavedId := default, persistedActiveId := default,
                   activeSavedId := None, storage := StorageAvailable, error := None))
  }

  function SelectSavedOf(s: State, id: Option<ProfileId>): Outcome {
    if s.pendingDeletion.Some? then Failure(ProfileDeletionPending)
    else if s.pendingModel.Some? then Failure(ModelSelectionPending)
    else if s.status == Connecting then Failure(StillConnecting)
    else if s.status.IsStreaming() then Failure(Busy)
    else if id.Some? && FindRow(s.savedProfiles, id.value).None? then Failure(InvalidSavedProfile)
    else Success(s.(selectedSavedId := id))
  }

  // ----- Provider connection -----

  function ProviderFailedOf(s: State, error: TranslationError): State {
    s.(pendingProvider := None, pendingWillBeSaved := false,
       status := if s.status.IsStreaming() then s.status
                 else if s.activeProvider.Some? then Ready else Failed,
       error := Some(error))
  }

  function StorageLostOf(s: State, error: TranslationError): State {
    ProviderFailedOf(
      s.(savedProfiles := [], selectedSavedId := None, persistedActiveId := None, activeSavedId := None,
         pendingDeletion := None, storage := StorageUnavailable),
      error)
  }

  function BeginConnectionOf(s: State, profile: Profile, remember: bool): Outcome {
    if !profile.enabled then Failure(InvalidProfile)
    else if s.status.IsStreaming() then Failure(Busy)
    else if s.pendingDeletion.Some? then Failure(ProfileDeletionPending)
    else if s.pendingModel.Some? then Failure(ModelSelectionPending)
    else if s.status == Connecting then Failure(StillConnecting)
    else if remember && s.storage != StorageAvailable then Failure(ProfileStorageUnavailable)
    else
      Success(s.(pendingProvider := Some(profile), pendingWillBeSaved := remember, status := Connecting, error := None))
  }

  // The profile a connection result must carry: the requested one, without its
  // selected model when discovery did not find that model.
  function Normalised(rule: ModelRule, pending: Profile, models: seq<Model>): Option<Profile> {
    WithSelectedModel(
      rule, pending,
      if pending.selectedModel.Some? && HasModel(models, pending.selectedModel.value)
      then pending.selectedModel else None)
  }

  predicate AcceptableSaved(runtime: Profile, saved: Profile) {
    !HasSessionSecret(saved) && MatchExceptSecret(runtime, saved)
  }

  function ConnectedOf(
    rule: ModelRule, s: State, profile: Profile, models: seq<Model>, saved: Option<Profile>): Outcome
  {
    if s.pendingProvider.None? || Normalised(rule, s.pendingProvider.value, models) != Some(profile)
    then Failure(UnexpectedProviderConnection)
    else if s.pendingWillBeSaved != saved.Some? || (saved.Some? && !AcceptableSaved(profile, saved.value))
    then Failure(InvalidSavedProfile)
    else
      var connected := s.(activeProvider := Some(profile), pendingProvider := None, pendingWillBeSaved := false,
                          activeSavedId := None, models := models, selectedModel := profile.selectedModel,
                          pendingModel := None, status := Ready, error := None);
      match saved
      case None => Success(connected)
      case Some(row) =>
        Success(connected.(savedProfiles := Upsert(s.savedProfiles, row), activeSavedId := Some(row.id),
                           selectedSavedId := Some(row.id), persistedActiveId := Some(row.id)))
  }

  function ConnectionFailedOf(s: State, profile: Profile, error: TranslationError): Outcome {
    if s.pendingProvider != Some(profile) then Failure(UnexpectedProviderConnection)
    else Success(ProviderFailedOf(s, error))
  }

  // ----- Model selection -----

  function BeginModelSelectionOf(s: State, model: string): Outcome {
    if s.status == Connecting then Failure(StillConnecting)
    else if s.status.IsStreaming() then Failure(Busy)
    else if s.pendingDeletion.Some? then Failure(ProfileDeletionPending)
    else if s.activeProvider.None? then Failure(MissingProvider)
    else if !HasModel(s.models, model) then Failure(UnknownModel(model))
    else Success(s.(pendingModel := Some(model), error := None))
  }

  function ConfirmModelSavedOf(
    rule: ModelRule, s: State, profileId: ProfileId, model: string, saved: Option<Profile>): Outcome
  {
    if s.activeProvider.None? then Failure(MissingProvider)
    else if s.activeProvider.value.id != profileId || s.pendingModel != Some(model)
    then Failure(UnexpectedModelSelection)
    else if !HasModel(s.models, model) then Failure(UnknownModel(model))
    else if s.activeSavedId.Some? != saved.Some? then Failure(InvalidSavedProfile)
    else if s.activeSavedId.Some? && (s.activeSavedId.value != profileId || s.persistedActiveId != Some(profileId))
    then Failure(InvalidSavedProfile)
    else match WithSelectedModel(rule, s.activeProvider.value, Some(model))
      case None => Failure(InvalidSavedProfile)
      case Some(updated) =>
        if saved.Some? && !AcceptableSaved(updated, saved.value) then Failure(InvalidSavedProfile)
        else if saved.Some? && FindRow(s.savedProfiles, profileId).None? then Failure(InvalidSavedProfile)
        else
          Success(s.(activeProvider := Some(updated), selectedModel := Some(model), pendingModel := None,
                     savedProfiles := if saved.Some? then Upsert(s.savedProfiles, saved.value) else s.savedProfiles))
  }

  function ConfirmModelOf(rule: ModelRule, s: State, model: string): Outcome {
    if s.activeProvider.None? then Failure(MissingProvider)
    else
      var id := s.activeProvider.value.id;
      if s.activeSavedId.None? then ConfirmModelSavedOf(rule, s, id, model, None)
      else if s.activeSavedId.value != id then Failure(InvalidSavedProfile)
      else match FindRow(s.savedProfiles, id)
        case None => Failure(InvalidSavedProfile)
        case Some(row) =>
          match WithSelectedModel(rule, row, Some(model))
          case None => Failure(InvalidSavedProfile)
          case Some(updated) => ConfirmModelSavedOf(rule, s, id, model, Some(updated))
  }

  function ModelSelectionFailedOf(s: State, model: string, error: TranslationError): Outcome {
    if s.pendingModel != Some(model) then Failure(UnexpectedModelSelection)
    else Success(s.(pendingModel := None, error := Some(error)))
  }

  function SelectModelOf(s: State, model: string): Outcome {
    if HasModel(s.models, model) then Success(s.(selectedModel := Some(model), pendingModel := None))
    else Failure(UnknownModel(model))
  }

  // ----- Deletion -----

  function BeginDeletionOf(s: State, id: ProfileId): Outcome {
    if s.storage != StorageAvailable then Failure(ProfileStorageUnavailable)
    else if s.pendingDeletion.Some? then Failure(ProfileDeletionPending)
    else if s.status == Connecting then Failure(StillConnecting)
    else if s.status.IsStreaming() then Failure(Busy)
    else if s.pendingModel.Some? then Failure(ModelSelectionPending)
    else if FindRow(s.savedProfiles, id).None? then Failure(InvalidSavedProfile)
    else Success(s.(pendingDeletion := Some(id), error := None))
  }

  function Unless(pointer: Option<ProfileId>, id: ProfileId): Option<ProfileId> {
    if pointer == Some(id) then None else pointer
  }

  function ConfirmDeletionOf(s: State, id: ProfileId): Outcome {
    if s.pendingDeletion != Some(id) then Failure(UnexpectedProfileDeletion)
    else match Position(s.savedProfiles, id)
      case None => Failure(UnexpectedProfileDeletion)
      case Some(index) =>
        Success(s.(savedProfiles := RemoveAt(s.savedProfiles, index),
                   selectedSavedId := Unless(s.selectedSavedId, id),
                   persistedActiveId := Unless(s.persistedActiveId, id),
                   activeSavedId := Unless(s.activeSavedId, id),
                   pendingDeletion := None, error := None))
  }

  function DeletionFailedOf(s: State, id: ProfileId, error: TranslationError): Outcome {
    if s.pendingDeletion != Some(id) then Failure(UnexpectedProfileDeletion)
    else Success(s.(pendingDeletion := None, error := Some(error)))
  }

  // ----- Workspace and streaming -----

  function ClearWorkspaceOf(s: State): State {
    s.(draft := s.draft.(sourceText := ""), output := "", partialOutput := false, usage := None, error := None,
       lastSequence := None, routingDecision := None,
       status := if s.activeProvider.Some? then Ready else Disconnected)
  }

  // The state in which a stream or a document job starts.
  function StartedFrom(s: State): State {
    s.(output := "", partialOutput := false, usage := None, status := Translating, error := None, lastSequence := None)
  }

  function BeginRefusal(s: State): Option<StateError> {
    if s.status == Connecting then Some(StillConnecting)
    else if s.status.IsStreaming() then Some(Busy)
    else if s.pendingModel.Some? then Some(ModelSelectionPending)
    else if s.pendingDeletion.Some? then Some(ProfileDeletionPending)
    else if s.activeProvider.None? then Some(MissingProvider)
    else None
  }

  function BeginTranslationOf(s: State): Outcome {
    if BeginRefusal(s).Some? then Failure(BeginRefusal(s).value)
    else if Text.IsBlank(s.draft.sourceText) then Failure(MissingSource)
    else if s.selectedModel.None? then Failure(MissingModel)
    else Success(StartedFrom(s))
  }

  function RequestOf(s: State): TranslationRequest
    requires s.selectedModel.Some?
  {
    TranslationRequest(
      s.draft.sourceText, s.draft.targetLocale, s.selectedModel.value, s.draft.sourceLocale, s.draft.glossary,
      s.draft.privacy, s.draft.quality, s.draft.preset)
  }

  function BeginDocumentOf(s: State): Outcome {
    if BeginRefusal(s).Some? then Failure(BeginRefusal(s).value)
    else if s.selectedModel.None? then Failure(MissingModel)
    else Success(StartedFrom(s))
  }

  function SetDocumentOutputOf(s: State, text: string): State {
    s.(output := text, partialOutput := true)
  }

  function CompleteDocumentOf(s: State, text: string): State {
    s.(output := text, partialOutput := false, status := Completed, error := None)
  }

  function CancelDocumentOf(s: State, text: string): State {
    s.(output := text, partialOutput := text != "", status := Cancelled)
  }

  function PauseDocumentOf(s: State, text: string): State {
    s.(output := text, partialOutput := text != "", status := Ready, error := None)
  }

  function FailDocumentOf(s: State, text: string, error: TranslationError): State {
    s.(output := text, partialOutput := text != "", status := Failed, error := Some(error))
  }

  function RequestCancellationOf(s: State): Outcome {
    if s.status != Translating then Failure(Busy) else Success(s.(status := Cancelling))
  }

  function EventRefusal(s: State, event: TranslationEvent): Option<StateError> {
    if s.status.IsTerminal() then Some(EventAfterTerminal)
    else if s.lastSequence.None? && !event.Started? then Some(UnexpectedFirstEvent)
    else if s.lastSequence.Some? && event.Started? then Some(UnexpectedStartedEvent)
    else if s.lastSequence.Some? && event.sequence <= s.lastSequence.value then Some(NonIncreasingSequence)
    else None
  }

  function StreamEventOf(s: State, event: TranslationEvent): Outcome {
    if EventRefusal(s, event).Some? then Failure(EventRefusal(s, event).value)
    else
      var next := s.(lastSequence := Some(event.sequence));
      Success(match event
        case Started(_) => next.(status := if s.status == Cancelling then Cancelling else Translating)
        case TextDelta(_, text) => next.(output := s.output + text, partialOutput := true)
        case CompletedEvent(_, usage) => next.(usage := usage, status := Completed, partialOutput := false)
        case CancelledEvent(_) => next.(status := Cancelled, partialOutput := s.output != "")
        case FailedEvent(_, error) => next.(status := Failed, partialOutput := s.output != "", error := Some(error)))
  }

  function ClientErrorOf(s: State, message: string): State {
    s.(status := Failed, error := Some(InternalError(message)))
  }

  function StreamErrorOf(s: State, message: string): State {
    s.(status := Cancelling, partialOutput := s.output != "", error := Some(InternalError(message)))
  }

  function OperationFailureOf(s: State, error: TranslationError): State {
    s.(status := Failed, partialOutput := s.output != "", error := Some(error))
  }

  // ----- One step -----

  function Step(rule: ModelRule, s: State, op: Op): Outcome {
    match op
    case UpdateHealth(profile) => UpdateHealthOf(s, profile)
    case Restore(rows, default) => RestoreOf(s, rows, default)
    case StorageLost(error) => Success(StorageLostOf(s, error))
    case SelectSaved(id) => SelectSavedOf(s, id)
    case BeginConnection(profile, remember) => BeginConnectionOf(s, profile, remember)
    case Connected(profile, models, saved) => ConnectedOf(rule, s, profile, models, saved)
    case ConnectionFailed(profile, error) => ConnectionFailedOf(s, profile, error)
    case ProviderFailed(error) => Success(ProviderFailedOf(s, error))
    case BeginModelSelection(model) => BeginModelSelectionOf(s, model)
    case ConfirmModel(model) => ConfirmModelOf(rule, s, model)
    case ConfirmModelSaved(profileId, model, saved) => ConfirmModelSavedOf(rule, s, profileId, model, saved)
    case ModelSelectionFailed(model, error) => ModelSelectionFailedOf(s, model, error)
    case BeginDeletion(id) => BeginDeletionOf(s, id)
    case ConfirmDeletion(id) => ConfirmDeletionOf(s, id)
    case DeletionFailed(id, error) => DeletionFailedOf(s, id, error)
    case SelectModel(model) => SelectModelOf(s, model)
    case SetInput(input) => Success(s.(draft := WithInput(s.draft, input)))
    case SetPreference(preference) => Success(s.(preferences := WithPreference(s.preferences, preference)))
    case RecordRouting(decision) => Success(s.(routingDecision := Some(decision)))
    case ClearWorkspace => Success(ClearWorkspaceOf(s))
    case BeginTranslation => BeginTranslationOf(s)
    case BeginDocument => BeginDocumentOf(s)
    case SetDocumentOutput(text) => Success(SetDocumentOutputOf(s, text))
    case CompleteDocument(text) => Success(CompleteDocumentOf(s, text))
    case CancelDocument(text) => Success(CancelDocumentOf(s, text))
    case PauseDocument(text) => Success(PauseDocumentOf(s, text))
    case FailDocument(text, error) => Success(FailDocumentOf(s, text, error))
    case RequestCancellation => RequestCancellationOf(s)
    case StreamEvent(event) => StreamEventOf(s, event)
    case RecordClientError(message) => Success(ClientErrorOf(s, message))
    case RecordStreamError(message) => Success(StreamErrorOf(s, message))
    case RecordOperationFailure(error) => Success(OperationFailureOf(s, error))
  }

  predicate Accepts(rule: ModelRule, s: State, op: Op) {
    Step(rule, s, op).Success?
  }

  // A refused call leaves the state as it was.
  function After(rule: ModelRule, s: State, op: Op): State {
    match Step(rule, s, op)
    case Success(next) => next
    case Failure(_) => s
  }

  function Run(rule: ModelRule, s: State, ops: seq<Op>): State
    decreases |ops|
  {
    if ops == [] then s else Run(rule, After(rule, s, ops[0]), ops[1..])
  }

  lemma {:induction false} RunConcat(rule: ModelRule, s: State, first: seq<Op>, second: seq<Op>)
    ensures Run(rule, s, first + second) == Run(rule, Run(rule, s, first), second)
    decreases |first|
  {
    if first == [] {
      assert first + second == second;
    } else {
      assert (first + second)[1..] == first[1..] + second;
      RunConcat(rule, After(rule, s, first[0]), first[1..], second);
    }
  }
}
