/**
 The state seen field by field: which accepted calls write each field, and with
 what. Over a run every field holds what the last accepted call that writes it
 left there.
 */
module Fields {
  import opened Wrappers
  import opened Profiles
  import opened Transitions
  import opened Invariant
  import opened Runs

  // ----- Providers, models and saved pointers -----

  function ActiveProviderAfter(s: State, op: Op): Option<Profile> {
    match op
    case Connected(profile, _, _) => Some(profile)
    case ConfirmModel(model) => SelectedIn(s.activeProvider, model)
    case ConfirmModelSaved(_, model, _) => SelectedIn(s.activeProvider, model)
    case UpdateHealth(profile) =>
      if s.activeProvider.Some? && s.activeProvider.value.id == profile.id then Some(profile) else s.activeProvider
    case _ => s.activeProvider
  }

  function SelectedIn(provider: Option<Profile>, model: string): Option<Profile> {
    match provider
    case None => None
    case Some(profile) => Some(profile.(selectedModel := Some(model)))
  }

  predicate EndsConnecting(op: Op) {
    op.Connected? || op.ConnectionFailed? || op.ProviderFailed? || op.StorageLost?
  }

  function PendingProviderAfter(s: State, op: Op): Option<Profile> {
    if op.BeginConnection? then Some(op.profile) else if EndsConnecting(op) then None else s.pendingProvider
  }

  function SaveIntentAfter(s: State, op: Op): bool {
    if op.BeginConnection? then op.remember else !EndsConnecting(op) && s.pendingWillBeSaved
  }

  function ModelsAfter(s: State, op: Op): seq<Model> {
    if op.Connected? then op.models else s.models
  }

  // The model that an accepted call selects, if it selects one or none.
  function Selects(s: State, op: Op): Option<Option<string>> {
    match op
    case Connected(profile, _, _) => Some(profile.selectedModel)
    case ConfirmModel(model) => Some(Some(model))
    case ConfirmModelSaved(_, model, _) => Some(Some(model))
    case SelectModel(model) => Some(Some(model))
    case _ => None
  }

  // The model whose confirmation a call starts or ends to wait for.
  function Awaits(s: State, op: Op): Option<Option<string>> {
    match op
    case BeginModelSelection(model) => Some(Some(model))
    case Connected(_, _, _) => Some(None)
    case ConfirmModel(_) => Some(None)
    case ConfirmModelSaved(_, _, _) => Some(None)
    case ModelSelectionFailed(_, _) => Some(None)
    case SelectModel(_) => Some(None)
    case _ => None
  }

  // The deletion that a call starts or ends to wait for.
  function Deletes(s: State, op: Op): Option<Option<ProfileId>> {
    match op
    case BeginDeletion(id) => Some(Some(id))
    case ConfirmDeletion(_) => Some(None)
    case DeletionFailed(_, _) => Some(None)
    case StorageLost(_) => Some(None)
    case _ => None
  }

  function SavedId(saved: Option<Profile>): Option<ProfileId> {
    if saved.Some? then Some(saved.value.id) else None
  }

  // A pointer to another row survives a deletion.
  function Spared(pointer: Option<ProfileId>, deleted: ProfileId): Option<Option<ProfileId>> {
    if pointer.Some? && pointer.value != deleted then None else Some(None)
  }

  function FormSelects(s: State, op: Op): Option<Option<ProfileId>> {
    match op
    case SelectSaved(id) => Some(id)
    case Restore(_, default) => Some(default)
    case Connected(_, _, saved) => if saved.Some? then Some(SavedId(saved)) else None
    case ConfirmDeletion(id) => Spared(s.selectedSavedId, id)
    case StorageLost(_) => Some(None)
    case _ => None
  }

  function RestartsWith(s: State, op: Op): Option<Option<ProfileId>> {
    match op
    case Restore(_, default) => Some(default)
    case Connected(_, _, saved) => if saved.Some? then Some(SavedId(saved)) else None
    case ConfirmDeletion(id) => Spared(s.persistedActiveId, id)
    case StorageLost(_) => Some(None)
    case _ => None
  }

  function ConnectsRow(s: State, op: Op): Option<Option<ProfileId>> {
    match op
    case Restore(_, _) => Some(None)
    case Connected(_, _, saved) => Some(SavedId(saved))
    case ConfirmDeletion(id) => Spared(s.activeSavedId, id)
    case StorageLost(_) => Some(None)
    case _ => None
  }

  function FindsStorage(s: State, op: Op): Option<StorageStatus> {
    match op
    case Restore(_, _) => Some(StorageAvailable)
    case StorageLost(_) => Some(StorageUnavailable)
    case _ => None
  }

  // ----- Errors -----

  // The error that a call reports, or None if it clears the one before.
  function Reports(s: State, op: Op): Option<Option<TranslationError>> {
    match op
    case StorageLost(error) => Some(Some(error))
    case ConnectionFailed(_, error) => Some(Some(error))
    case ProviderFailed(error) => Some(Some(error))
    case ModelSelectionFailed(_, error) => Some(Some(error))
    case DeletionFailed(_, error) => Some(Some(error))
    case FailDocument(_, error) => Some(Some(error))
    case RecordOperationFailure(error) => Some(Some(error))
    case RecordClientError(message) => Some(Some(TranslationError(Internal, message, None)))
    case RecordStreamError(message) => Some(Some(TranslationError(Internal, message, None)))
    case StreamEvent(event) => if event.FailedEvent? then Some(Some(event.error)) else None
    case _ => if Clears(op) then Some(None) else None
  }

  predicate Clears(op: Op) {
    op.Restore? || op.BeginConnection? || op.Connected? || op.BeginModelSelection? || op.BeginDeletion?
    || op.ConfirmDeletion? || op.ClearWorkspace? || op.BeginTranslation? || op.BeginDocument?
    || op.CompleteDocument? || op.PauseDocument?
  }

  // ----- Inputs and preferences -----

  function SetsText(s: State, op: Op): Option<string> {
    if op.ClearWorkspace? then Some("")
    else if op.SetInput? && op.input.SourceText? then Some(op.input.text) else None
  }

  function SetsSource(s: State, op: Op): Option<Option<string>> {
    if op.SetInput? && op.input.SourceLocale? then Some(op.input.source) else None
  }

  function SetsTarget(s: State, op: Op): Option<string> {
    if op.SetInput? && op.input.TargetLocale? then Some(op.input.target) else None
  }

  function SetsGlossary(s: State, op: Op): Option<Option<string>> {
    if op.SetInput? && op.input.GlossaryInput? then Some(op.input.glossary) else None
  }

  function SetsPrivacy(s: State, op: Op): Option<PrivacyMode> {
    if op.SetInput? && op.input.PrivacyInput? then Some(op.input.privacy) else None
  }

  function SetsQuality(s: State, op: Op): Option<string> {
    if op.SetInput? && op.input.QualityInput? then Some(op.input.quality) else None
  }

  function SetsPreset(s: State, op: Op): Option<string> {
    if op.SetInput? && op.input.PresetInput? then Some(op.input.preset) else None
  }

  function Routes(s: State, op: Op): Option<Option<string>> {
    if op.RecordRouting? then Some(Some(op.decision)) else if op.ClearWorkspace? then Some(None) else None
  }

  // ----- One accepted call -----

  function Or<V>(written: Option<V>, before: V): V {
    if written.Some? then written.value else before
  }

  predicate ProvidersWritten(s: State, op: Op, next: State) {
    && next.activeProvider == ActiveProviderAfter(s, op)
    && next.pendingProvider == PendingProviderAfter(s, op)
    && next.pendingWillBeSaved == SaveIntentAfter(s, op)
    && next.models == ModelsAfter(s, op)
    && next.selectedModel == Or(Selects(s, op), s.selectedModel)
    && next.pendingModel == Or(Awaits(s, op), s.pendingModel)
  }

  predicate PointersWritten(s: State, op: Op, next: State) {
    && next.selectedSavedId == Or(FormSelects(s, op), s.selectedSavedId)
    && next.persistedActiveId == Or(RestartsWith(s, op), s.persistedActiveId)
    && next.activeSavedId == Or(ConnectsRow(s, op), s.activeSavedId)
    && next.pendingDeletion == Or(Deletes(s, op), s.pendingDeletion)
    && next.storage == Or(FindsStorage(s, op), s.storage)
    && next.error == Or(Reports(s, op), s.error)
  }

  predicate InputsWritten(s: State, op: Op, next: State) {
    && next.draft.sourceText == Or(SetsText(s, op), s.draft.sourceText)
    && next.draft.sourceLocale == Or(SetsSource(s, op), s.draft.sourceLocale)
    && next.draft.targetLocale == Or(SetsTarget(s, op), s.draft.targetLocale)
    && next.draft.glossary == Or(SetsGlossary(s, op), s.draft.glossary)
    && next.draft.privacy == Or(SetsPrivacy(s, op), s.draft.privacy)
    && next.draft.quality == Or(SetsQuality(s, op), s.draft.quality)
    && next.draft.preset == Or(SetsPreset(s, op), s.draft.preset)
    && next.routingDecision == Or(Routes(s, op), s.routingDecision)
  }

  predicate PreferencesWritten(s: State, op: Op, next: State) {
    var was, now := s.preferences, next.preferences;
    if !op.SetPreference? then now == was
    else
      var p := op.preference;
      && now.workerStartup == (if !p.WorkerMarked? then was.workerStartup
                               else if p.ready then WorkerReady else WorkerFailed)
      && now.historyCount == (if p.HistoryCount? then p.count else was.historyCount)
      && now.historyEnabled == (if p.HistoryEnabled? then p.enabled else was.historyEnabled)
      && now.memoryCount == (if p.MemoryCount? then p.count else was.memoryCount)
      && now.memoryEnabled == (if p.MemoryEnabled? then p.enabled else was.memoryEnabled)
      && now.theme == (if p.Theme? then p.theme else was.theme)
      && now.locale == (if p.Locale? then p.locale else was.locale)
  }

  predicate Written(s: State, op: Op, next: State) {
    && ProvidersWritten(s, op, next) && PointersWritten(s, op, next)
    && InputsWritten(s, op, next) && PreferencesWritten(s, op, next)
  }

  lemma {:induction false} RowsWrite(rule: ModelRule, s: State, op: Op)
    requires op.UpdateHealth? || op.Restore?
    requires Accepts(rule, s, op)
    ensures Written(s, op, After(rule, s, op))
  {
  }

  lemma {:induction false} DropsWrite(rule: ModelRule, s: State, op: Op)
    requires op.StorageLost? || op.ConfirmDeletion?
    requires Accepts(rule, s, op)
    ensures Written(s, op, After(rule, s, op))
  {
  }

  lemma {:induction false} SavedRequestsWrite(rule: ModelRule, s: State, op: Op)
    requires op.SelectSaved? || op.BeginDeletion? || op.DeletionFailed?
    requires Accepts(rule, s, op)
    ensures Written(s, op, After(rule, s, op))
  {
  }

  lemma {:induction false} ConnectionsWrite(rule: ModelRule, s: State, op: Op)
    requires op.BeginConnection? || op.Connected?
    requires Accepts(rule, s, op)
    ensures Written(s, op, After(rule, s, op))
  {
  }

  lemma {:induction false} FailuresWrite(rule: ModelRule, s: State, op: Op)
    requires op.ConnectionFailed? || op.ProviderFailed?
    requires Accepts(rule, s, op)
    ensures Written(s, op, After(rule, s, op))
  {
  }

  lemma {:induction false} ModelRequestsWrite(rule: ModelRule, s: State, op: Op)
    requires op.BeginModelSelection? || op.ModelSelectionFailed?
    requires Accepts(rule, s, op)
    ensures Written(s, op, After(rule, s, op))
  {
  }

  lemma {:induction false} SelectionsWrite(rule: ModelRule, s: State, op: Op)
    requires op.SelectModel?
    requires Accepts(rule, s, op)
    ensures Written(s, op, After(rule, s, op))
  {
  }

  lemma {:induction false} ConfirmationSelects(
      rule: ModelRule, s: State, op: Op, id: ProfileId, model: string, saved: Option<Profile>)
    requires op == ConfirmModel(model) || op == ConfirmModelSaved(id, model, saved)
    requires ConfirmModelSavedOf(rule, s, id, model, saved).Success?
    ensures ProvidersWritten(s, op, ConfirmModelSavedOf(rule, s, id, model, saved).value)
  {
  }

  lemma {:induction false} ConfirmationKeepsOthers(
      rule: ModelRule, s: State, op: Op, id: ProfileId, model: string, saved: Option<Profile>)
    requires op == ConfirmModel(model) || op == ConfirmModelSaved(id, model, saved)
    requires ConfirmModelSavedOf(rule, s, id, model, saved).Success?
    ensures var next := ConfirmModelSavedOf(rule, s, id, model, saved).value;
            PointersWritten(s, op, next) && InputsWritten(s, op, next) && PreferencesWritten(s, op, next)
  {
  }

  lemma {:induction false} ConfirmationsWrite(
      rule: ModelRule, s: State, op: Op, id: ProfileId, model: string, saved: Option<Profile>)
    requires op == ConfirmModel(model) || op == ConfirmModelSaved(id, model, saved)
    requires ConfirmModelSavedOf(rule, s, id, model, saved).Success?
    ensures Written(s, op, ConfirmModelSavedOf(rule, s, id, model, saved).value)
  {
    ConfirmationSelects(rule, s, op, id, model, saved);
    ConfirmationKeepsOthers(rule, s, op, id, model, saved);
  }

  lemma {:induction false} InputsWrite(rule: ModelRule, s: State, op: Op)
    requires op.SetInput?
    ensures Accepts(rule, s, op) && Written(s, op, After(rule, s, op))
  {
  }

  lemma {:induction false} PreferencesWrite(rule: ModelRule, s: State, op: Op)
    requires op.SetPreference?
    ensures Accepts(rule, s, op) && Written(s, op, After(rule, s, op))
  {
  }

  lemma {:induction false} SettingsWrite(rule: ModelRule, s: State, op: Op)
    requires op.RecordRouting? || op.ClearWorkspace?
    ensures Accepts(rule, s, op) && Written(s, op, After(rule, s, op))
  {
  }

  lemma {:induction false} DocumentsWrite(rule: ModelRule, s: State, op: Op)
    requires (op.BeginDocument? || op.SetDocumentOutput? || op.PauseDocument?) && Accepts(rule, s, op)
    ensures Written(s, op, After(rule, s, op))
  {
  }

  lemma {:induction false} FinishesWrite(rule: ModelRule, s: State, op: Op)
    requires op.CompleteDocument? || op.CancelDocument? || op.FailDocument?
    ensures Written(s, op, After(rule, s, op))
  {
  }

  lemma {:induction false} EventsWrite(s: State, event: TranslationEvent)
    requires StreamEventOf(s, event).Success?
    ensures Written(s, StreamEvent(event), StreamEventOf(s, event).value)
  {
  }

  lemma {:induction false} TranslationsWrite(rule: ModelRule, s: State, op: Op)
    requires IsTranslationOp(op) && !op.StreamEvent? && Accepts(rule, s, op)
    ensures Written(s, op, After(rule, s, op))
  {
  }

  predicate IsModelConfirmation(op: Op) {
    op.ConfirmModel? || op.ConfirmModelSaved?
  }

  lemma {:induction false} ConfirmationWrites(rule: ModelRule, s: State, op: Op)
    requires IsModelConfirmation(op) && Accepts(rule, s, op)
    ensures Written(s, op, After(rule, s, op))
  {
    if op.ConfirmModel? {
      ConfirmModelSupplies(rule, s, op.model);
      ConfirmationsWrite(rule, s, op, s.activeProvider.value.id, op.model, SuppliedRow(rule, s, op.model));
    } else {
      ConfirmationsWrite(rule, s, op, op.profileId, op.model, op.saved);
    }
  }

  // Every accepted call, and no other, writes the fields as said above.
  lemma {:induction false} FieldsStep(rule: ModelRule, s: State, op: Op)
    ensures Accepts(rule, s, op) ==> Written(s, op, After(rule, s, op))
    ensures !Accepts(rule, s, op) ==> After(rule, s, op) == s
  {
    if Accepts(rule, s, op) {
      match op
      case SelectSaved(_) => SavedRequestsWrite(rule, s, op);
      case BeginDeletion(_) => SavedRequestsWrite(rule, s, op);
      case DeletionFailed(_, _) => SavedRequestsWrite(rule, s, op);
      case UpdateHealth(_) => RowsWrite(rule, s, op);
      case Restore(_, _) => RowsWrite(rule, s, op);
      case StorageLost(_) => DropsWrite(rule, s, op);
      case ConfirmDeletion(_) => DropsWrite(rule, s, op);
      case BeginModelSelection(_) => ModelRequestsWrite(rule, s, op);
      case ModelSelectionFailed(_, _) => ModelRequestsWrite(rule, s, op);
      case SelectModel(_) => SelectionsWrite(rule, s, op);
      case ConfirmModel(_) => ConfirmationWrites(rule, s, op);
      case ConfirmModelSaved(_, _, _) => ConfirmationWrites(rule, s, op);
      case StreamEvent(event) => EventsWrite(s, event);
      case SetInput(_) => InputsWrite(rule, s, op);
      case SetPreference(_) => PreferencesWrite(rule, s, op);
      case RecordRouting(_) => SettingsWrite(rule, s, op);
      case ClearWorkspace => SettingsWrite(rule, s, op);
      case _ =>
        if op.CompleteDocument? || op.CancelDocument? || op.FailDocument? {
          FinishesWrite(rule, s, op);
        } else if IsDocumentOp(op) {
          DocumentsWrite(rule, s, op);
        } else if IsTranslationOp(op) {
          TranslationsWrite(rule, s, op);
        } else if op.ConnectionFailed? || op.ProviderFailed? {
          FailuresWrite(rule, s, op);
        } else {
          ConnectionsWrite(rule, s, op);
        }
    }
  }

  // ----- Runs -----

  // What the last accepted call of a run that writes a field wrote there.
  function LastWritten<V>(
    rule: ModelRule, s: State, ops: seq<Op>, writes: (State, Op) -> Option<V>, current: V): V
    decreases |ops|
  {
    if ops == [] then current
    else
      LastWritten(rule, After(rule, s, ops[0]), ops[1..], writes,
                  if Accepts(rule, s, ops[0]) then Or(writes(s, ops[0]), current) else current)
  }

  // The selected model is that of the last accepted connection, confirmation or
  // direct selection, and the pending model and deletion are those that the last
  // accepted call started, unless one ended them since.
  lemma {:induction false} ChoicesRun(rule: ModelRule, s: State, ops: seq<Op>)
    ensures var end := Run(rule, s, ops);
            && end.selectedModel == LastWritten(rule, s, ops, Selects, s.selectedModel)
            && end.pendingModel == LastWritten(rule, s, ops, Awaits, s.pendingModel)
            && end.pendingDeletion == LastWritten(rule, s, ops, Deletes, s.pendingDeletion)
    decreases |ops|
  {
    if ops != [] {
      FieldsStep(rule, s, ops[0]);
      ChoicesRun(rule, After(rule, s, ops[0]), ops[1..]);
    }
  }

  // The saved-row pointers are what the last accepted call that moves them said,
  // and the error is the one last reported: a failed stream shows the error of
  // its own event, until a call clears it.
  lemma {:induction false} PointersRun(rule: ModelRule, s: State, ops: seq<Op>)
    ensures var end := Run(rule, s, ops);
            && end.selectedSavedId == LastWritten(rule, s, ops, FormSelects, s.selectedSavedId)
            && end.persistedActiveId == LastWritten(rule, s, ops, RestartsWith, s.persistedActiveId)
            && end.activeSavedId == LastWritten(rule, s, ops, ConnectsRow, s.activeSavedId)
            && end.storage == LastWritten(rule, s, ops, FindsStorage, s.storage)
            && end.error == LastWritten(rule, s, ops, Reports, s.error)
    decreases |ops|
  {
    if ops != [] {
      FieldsStep(rule, s, ops[0]);
      PointersRun(rule, After(rule, s, ops[0]), ops[1..]);
    }
  }

  // Each input of the next request is the one that was set last.
  lemma {:induction false} InputsRun(rule: ModelRule, s: State, ops: seq<Op>)
    ensures var draft := Run(rule, s, ops).draft;
            && draft.sourceText == LastWritten(rule, s, ops, SetsText, s.draft.sourceText)
            && draft.sourceLocale == LastWritten(rule, s, ops, SetsSource, s.draft.sourceLocale)
            && draft.targetLocale == LastWritten(rule, s, ops, SetsTarget, s.draft.targetLocale)
            && draft.glossary == LastWritten(rule, s, ops, SetsGlossary, s.draft.glossary)
            && draft.privacy == LastWritten(rule, s, ops, SetsPrivacy, s.draft.privacy)
            && draft.quality == LastWritten(rule, s, ops, SetsQuality, s.draft.quality)
            && draft.preset == LastWritten(rule, s, ops, SetsPreset, s.draft.preset)
    decreases |ops|
  {
    if ops != [] {
      FieldsStep(rule, s, ops[0]);
      InputsRun(rule, After(rule, s, ops[0]), ops[1..]);
    }
  }

  // On any run from the default state, an accepted request carries the inputs
  // that were set last, or the defaults, and the model that was selected last.
  // Clearing the workspace sets the text to the empty one.
  lemma {:induction false} RequestCarriesInputs(rule: ModelRule, ops: seq<Op>)
    requires Accepts(rule, Run(rule, INITIAL, ops), BeginTranslation)
    ensures Run(rule, INITIAL, ops).selectedModel.Some?
    ensures var request := RequestOf(Run(rule, INITIAL, ops));
            && request.sourceText == LastWritten(rule, INITIAL, ops, SetsText, "")
            && request.targetLocale == LastWritten(rule, INITIAL, ops, SetsTarget, "zh-CN")
            && Some(request.modelId) == LastWritten(rule, INITIAL, ops, Selects, None)
            && request.sourceLocale == LastWritten(rule, INITIAL, ops, SetsSource, None)
            && request.glossary == LastWritten(rule, INITIAL, ops, SetsGlossary, None)
            && request.privacy == LastWritten(rule, INITIAL, ops, SetsPrivacy, Standard)
            && request.quality == LastWritten(rule, INITIAL, ops, SetsQuality, "balanced")
            && request.preset == LastWritten(rule, INITIAL, ops, SetsPreset, "general")
  {
    InputsRun(rule, INITIAL, ops);
    ChoicesRun(rule, INITIAL, ops);
  }

  // A connection selects the model that its profile asked for, if discovery found
  // it, and none otherwise; everything else of the provider is as requested.
  lemma {:induction false} ConnectionSelects(
      rule: ModelRule, s: State, profile: Profile, models: seq<Model>, saved: Option<Profile>)
    requires Accepts(rule, s, Connected(profile, models, saved))
    ensures s.pendingProvider.Some?
    ensures var wanted := s.pendingProvider.value.selectedModel;
            var found := wanted.Some? && exists i :: 0 <= i < |models| && models[i].id == wanted.value;
            var next := After(rule, s, Connected(profile, models, saved));
            && next.selectedModel == (if found then wanted else None)
            && next.activeProvider == Some(s.pendingProvider.value.(selectedModel := next.selectedModel))
  {
    FieldsStep(rule, s, Connected(profile, models, saved));
  }
}
