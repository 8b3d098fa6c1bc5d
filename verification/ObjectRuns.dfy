/** Runs of the client object, call by call, are the runs of the transition functions. */
module ObjectRuns {
  import opened Wrappers
  import opened Profiles
  import opened Transitions
  import opened Runs
  import opened Client

  predicate IsRequest(op: Op) {
    op.UpdateHealth? || op.Restore? || op.StorageLost? || op.SelectSaved? || op.BeginConnection? || op.Connected?
    || op.ConnectionFailed? || op.ProviderFailed? || op.BeginModelSelection? || op.ConfirmModel?
    || op.ConfirmModelSaved? || op.ModelSelectionFailed? || op.BeginDeletion? || op.ConfirmDeletion?
    || op.DeletionFailed? || op.SelectModel?
  }

  predicate IsSetting(op: Op) {
    op.SetInput? || op.SetPreference? || op.RecordRouting?
  }

  predicate IsDocument(op: Op) {
    op.BeginDocument? || op.SetDocumentOutput? || op.CompleteDocument? || op.CancelDocument? || op.PauseDocument?
    || op.FailDocument?
  }

  // What the saved-profile, connection, model and deletion calls do to the object.
  method PerformRequest(client: AppState, op: Op) returns (accepted: bool)
    requires IsRequest(op)
    modifies client
    ensures old(client.Valid()) ==> client.Valid()
    ensures accepted == Accepts(client.rule, old(client.View()), op)
    ensures client.View() == After(client.rule, old(client.View()), op)
  {
    var r: Result<(), StateError> := Success(());
    match op {
      case UpdateHealth(profile) => r := client.UpdateSavedProfileHealth(profile);
      case Restore(rows, default) => r := client.RestoreSavedProfiles(rows, default);
      case StorageLost(error) => client.ProfileStorageUnavailable(error);
      case SelectSaved(id) => r := client.SelectSavedProfile(id);
      case BeginConnection(profile, remember) => r := client.BeginProviderConnectionWithPersistence(profile, remember);
      case Connected(profile, models, saved) => r := client.ProviderConnectedWithSavedProfile(profile, models, saved);
      case ConnectionFailed(profile, error) => r := client.ProviderConnectionFailed(profile, error);
      case ProviderFailed(error) => client.ProviderFailed(error);
      case BeginModelSelection(model) => r := client.BeginModelSelection(model);
      case ConfirmModel(model) => r := client.ConfirmModelSelection(model);
      case ConfirmModelSaved(id, model, saved) => r := client.ConfirmModelSelectionWithSavedProfile(id, model, saved);
      case ModelSelectionFailed(model, error) => r := client.ModelSelectionFailed(model, error);
      case BeginDeletion(id) => r := client.BeginProfileDeletion(id);
      case ConfirmDeletion(id) => r := client.ConfirmProfileDeletion(id);
      case DeletionFailed(id, error) => r := client.ProfileDeletionFailed(id, error);
      case SelectModel(model) => r := client.SelectModel(model);
    }
    accepted := r.Success?;
  }

  // What the setters and the routing record do to the object.
  method PerformSetting(client: AppState, op: Op)
    requires IsSetting(op)
    modifies client
    ensures old(client.Valid()) ==> client.Valid()
    ensures client.View() == After(client.rule, old(client.View()), op)
  {
    match op {
      case SetInput(input) => PerformInput(client, input);
      case SetPreference(preference) => PerformPreference(client, preference);
      case RecordRouting(decision) => client.RecordRoutingDecision(decision);
    }
  }

  method PerformInput(client: AppState, input: Input)
    modifies client
    ensures old(client.Valid()) ==> client.Valid()
    ensures client.View() == old(client.View()).(draft := WithInput(old(client.View()).draft, input))
  {
    match input {
      case SourceText(text) => client.SetSourceText(text);
      case SourceLocale(source) => client.SetSourceLocale(source);
      case TargetLocale(target) => client.SetTargetLocale(target);
      case GlossaryInput(glossary) => client.SetGlossary(glossary);
      case PrivacyInput(privacy) => client.SetPrivacyMode(privacy);
      case QualityInput(quality) => client.SetQualityMode(quality);
      case PresetInput(preset) => client.SetTranslationPreset(preset);
    }
  }

  method PerformPreference(client: AppState, preference: Preference)
    modifies client
    ensures old(client.Valid()) ==> client.Valid()
    ensures client.View() ==
              old(client.View()).(preferences := WithPreference(old(client.View()).preferences, preference))
  {
    match preference {
      case WorkerMarked(ready) => if ready { client.MarkWorkerReady(); } else { client.MarkWorkerUnavailable(); }
      case HistoryCount(count) => client.RestoreTranslationHistoryCount(count);
      case HistoryEnabled(enabled) => client.RestoreTranslationHistoryEnabled(enabled);
      case MemoryCount(count) => client.RestoreTranslationMemoryCount(count);
      case MemoryEnabled(enabled) => client.RestoreTranslationMemoryEnabled(enabled);
      case Theme(theme) => client.SetTheme(theme);
      case Locale(locale) => client.SetLocale(locale);
    }
  }

  // What the document calls do to the object, in three groups.
  method PerformOutput(client: AppState, op: Op)
    requires op.SetDocumentOutput? || op.CompleteDocument?
    modifies client
    ensures old(client.Valid()) ==> client.Valid()
    ensures client.View() == After(client.rule, old(client.View()), op)
  {
    if op.SetDocumentOutput? {
      client.SetDocumentOutput(op.text);
    } else {
      client.CompleteDocumentTranslation(op.text);
    }
  }

  method PerformHalt(client: AppState, op: Op)
    requires op.CancelDocument? || op.PauseDocument?
    modifies client
    ensures old(client.Valid()) ==> client.Valid()
    ensures client.View() == After(client.rule, old(client.View()), op)
  {
    if op.CancelDocument? {
      client.CancelDocumentTranslation(op.text);
    } else {
      client.PauseDocumentTranslation(op.text);
    }
  }

  method PerformBegin(client: AppState, op: Op) returns (accepted: bool)
    requires op.BeginDocument? || op.FailDocument?
    modifies client
    ensures old(client.Valid()) ==> client.Valid()
    ensures accepted == Accepts(client.rule, old(client.View()), op)
    ensures client.View() == After(client.rule, old(client.View()), op)
  {
    accepted := true;
    if op.BeginDocument? {
      var r := client.BeginDocumentTranslation();
      accepted := r.Success?;
    } else {
      client.FailDocumentTranslation(op.text, op.error);
    }
  }

  method PerformDocument(client: AppState, op: Op) returns (accepted: bool)
    requires IsDocument(op)
    modifies client
    ensures old(client.Valid()) ==> client.Valid()
    ensures accepted == Accepts(client.rule, old(client.View()), op)
    ensures client.View() == After(client.rule, old(client.View()), op)
  {
    accepted := true;
    if op.SetDocumentOutput? || op.CompleteDocument? {
      PerformOutput(client, op);
    } else if op.CancelDocument? || op.PauseDocument? {
      PerformHalt(client, op);
    } else {
      accepted := PerformBegin(client, op);
    }
  }

  // What the text request, the stream and the error records do to the object.
  method PerformTranslation(client: AppState, op: Op) returns (accepted: bool)
    requires !IsRequest(op) && !IsSetting(op) && !IsDocument(op) && !op.ClearWorkspace?
    modifies client
    ensures old(client.Valid()) ==> client.Valid()
    ensures accepted == Accepts(client.rule, old(client.View()), op)
    ensures client.View() == After(client.rule, old(client.View()), op)
  {
    var r: Result<(), StateError> := Success(());
    match op {
      case BeginTranslation =>
        var request := client.BeginTranslation();
        return request.Success?;
      case RequestCancellation => r := client.RequestCancellation();
      case StreamEvent(event) => r := client.ApplyTranslationEvent(event);
      case RecordClientError(message) => client.RecordClientError(message);
      case RecordStreamError(message) => client.RecordStreamError(message);
      case RecordOperationFailure(error) => client.RecordOperationFailure(error);
    }
    accepted := r.Success?;
  }

  // One public call, chosen by the caller.
  method Perform(client: AppState, op: Op) returns (accepted: bool)
    modifies client
    ensures old(client.Valid()) ==> client.Valid()
    ensures accepted == Accepts(client.rule, old(client.View()), op)
    ensures client.View() == After(client.rule, old(client.View()), op)
  {
    if op.ClearWorkspace? {
      client.ClearWorkspace();
      accepted := true;
    } else if IsSetting(op) {
      PerformSetting(client, op);
      accepted := true;
    } else if IsDocument(op) {
      accepted := PerformDocument(client, op);
    } else if IsRequest(op) {
      accepted := PerformRequest(client, op);
    } else {
      accepted := PerformTranslation(client, op);
    }
  }

  // Performs the calls of a run on the object and reports those it accepted. The
  // object ends in the state of the run, and replaying only the accepted calls
  // from the same state ends there too.
  method PerformAll(client: AppState, ops: seq<Op>) returns (accepted: seq<Op>)
    modifies client
    ensures old(client.Valid()) ==> client.Valid()
    ensures client.View() == Run(client.rule, old(client.View()), ops)
    ensures accepted == AcceptedOps(client.rule, old(client.View()), ops)
    ensures client.View() == Run(client.rule, old(client.View()), accepted)
  {
    ghost var start := client.View();
    ghost var rule := client.rule;
    RefusedCallsErase(rule, start, ops);
    accepted := [];
    for i := 0 to |ops|
      invariant old(client.Valid()) ==> client.Valid()
      invariant Run(rule, client.View(), ops[i..]) == Run(rule, start, ops)
      invariant accepted + AcceptedOps(rule, client.View(), ops[i..]) == AcceptedOps(rule, start, ops)
    {
      ghost var s := client.View();
      var ok := Perform(client, ops[i]);
      RunSplits(rule, s, ops[i..], accepted, ok);
      assert ops[i..][1..] == ops[i + 1..];
      if ok {
        accepted := accepted + [ops[i]];
      }
    }
  }

  lemma {:induction false} RunSplits(rule: ModelRule, s: State, ops: seq<Op>, before: seq<Op>, accepted: bool)
    requires ops != [] && accepted == Accepts(rule, s, ops[0])
    ensures Run(rule, s, ops) == Run(rule, After(rule, s, ops[0]), ops[1..])
    ensures before + AcceptedOps(rule, s, ops) ==
              (if accepted then before + [ops[0]] else before) + AcceptedOps(rule, After(rule, s, ops[0]), ops[1..])
  {
  }
}
