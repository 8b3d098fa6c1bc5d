/** Pending requests: which results each of them accepts. */
module Pending {
  import opened Wrappers
  import opened Profiles
  import opened Transitions
  import opened SavedRows
  import opened Invariant
  import opened Runs
  import opened RowUpdates
  import opened SavedRuns
  import opened Fields
  import opened Guards

  // ----- Models -----

  // A pending model can be confirmed exactly when Core accepts its identifier
  // and the connected row holds no session secret; it can always be rolled back.
  lemma {:induction false} PendingModelResolves(rule: ModelRule, s: State, model: string, error: TranslationError)
    requires Inv(s) && s.pendingModel == Some(model)
    ensures Accepts(rule, s, ConfirmModel(model)) <==>
              && rule(model)
              && (s.activeSavedId.Some? ==>
                    !HasSessionSecret(FindRow(s.savedProfiles, s.activeSavedId.value).value))
    ensures Accepts(rule, s, ModelSelectionFailed(model, error))
  {
  }

  // An accepted confirmation resolves the request: the model is selected, in the
  // provider too, and nothing is pending.
  lemma {:induction false} ConfirmationResolves(rule: ModelRule, s: State, op: Op)
    requires (op.ConfirmModel? || op.ConfirmModelSaved?) && Accepts(rule, s, op)
    ensures IsSelected(After(rule, s, op), op.model)
  {
    FieldsStep(rule, s, op);
    RefusedExactly(rule, s, op);
  }

  // A rollback leaves nothing pending and everything else as it was selected.
  lemma {:induction false} RollbackKeepsModel(rule: ModelRule, s: State, model: string, error: TranslationError)
    requires Accepts(rule, s, ModelSelectionFailed(model, error))
    ensures var next := After(rule, s, ModelSelectionFailed(model, error));
            next.pendingModel.None? && next.selectedModel == s.selectedModel && next.activeProvider == s.activeProvider
  {
    FieldsStep(rule, s, ModelSelectionFailed(model, error));
  }

  predicate IsSelected(s: State, model: string) {
    && s.selectedModel == Some(model)
    && s.pendingModel.None?
    && s.activeProvider.Some? && s.activeProvider.value.selectedModel == Some(model)
  }

  // On every run in which no health update stores a session secret, a pending
  // selection of a model that Core accepts is confirmed, and then selected.
  lemma {:induction false} PendingModelNeverStuck(rule: ModelRule, ops: seq<Op>, model: string)
    requires Every(rule, INITIAL, ops, StoresNoSecret)
    requires Run(rule, INITIAL, ops).pendingModel == Some(model) && rule(model)
    ensures Accepts(rule, Run(rule, INITIAL, ops), ConfirmModel(model))
    ensures IsSelected(After(rule, Run(rule, INITIAL, ops), ConfirmModel(model)), model)
  {
    var s := Run(rule, INITIAL, ops);
    InvInitial();
    InvReachable(rule, ops);
    SecretsRun(rule, INITIAL, ops);
    ThroughoutEnd(rule, INITIAL, ops, SecretsPersistent);
    PendingModelResolves(rule, s, model, InternalError(""));
    if s.activeSavedId.Some? {
      SessionSecretRow(s.savedProfiles);
      assert FindRow(s.savedProfiles, s.activeSavedId.value).value in s.savedProfiles;
    }
    ConfirmationResolves(rule, s, ConfirmModel(model));
  }

  // `begin_model_selection` does not consult Core's rule, so a discovered model
  // that the rule refuses becomes pending and cannot be confirmed.
  lemma {:induction false} RefusedModelStaysPending(profile: Profile)
    requires profile.enabled && profile.selectedModel.None?
    ensures var rule := (m: string) => m != "bad model";
            var s := Run(rule, INITIAL,
                         [BeginConnection(profile, false), Connected(profile, [Model("bad model", "")], None),
                          BeginModelSelection("bad model")]);
            s.pendingModel == Some("bad model") && !Accepts(rule, s, ConfirmModel("bad model"))
  {
    var rule := (m: string) => m != "bad model";
    var models := [Model("bad model", "")];
    var begin, result := BeginConnection(profile, false), Connected(profile, models, None);
    var choose := BeginModelSelection("bad model");
    var s1 := INITIAL.(pendingProvider := Some(profile), status := Connecting);
    var s2 := s1.(activeProvider := Some(profile), pendingProvider := None, models := models, status := Ready);
    var s3 := s2.(pendingModel := Some("bad model"));
    assert profile.(selectedModel := None) == profile && models[0].id == "bad model";
    RunNext(rule, INITIAL, begin, [result, choose], s1);
    RunNext(rule, s1, result, [choose], s2);
    RunNext(rule, s2, choose, [], s3);
  }

  const SAMPLE_SECRET := SAMPLE.(secret := Some(Session("key")))

  const SAMPLE_MODELS := [Model("m", "")]

  const SAMPLE_CONNECT := [
    Restore([], None), BeginConnection(SAMPLE, true), Connected(SAMPLE, SAMPLE_MODELS, Some(SAMPLE))]

  const SAMPLE_CONNECTED := INITIAL.(
    storage := StorageAvailable, activeProvider := Some(SAMPLE), savedProfiles := [SAMPLE],
    activeSavedId := Some("a"), selectedSavedId := Some("a"), persistedActiveId := Some("a"),
    models := SAMPLE_MODELS, status := Ready)

  lemma {:induction false} SampleConnects(rule: ModelRule)
    ensures Run(rule, INITIAL, SAMPLE_CONNECT) == SAMPLE_CONNECTED
  {
    var s1 := INITIAL.(storage := StorageAvailable);
    var s2 := s1.(pendingProvider := Some(SAMPLE), pendingWillBeSaved := true, status := Connecting);
    assert SortRows([]) == [];
    RunNext(rule, INITIAL, SAMPLE_CONNECT[0], SAMPLE_CONNECT[1..], s1);
    RunNext(rule, s1, SAMPLE_CONNECT[1], SAMPLE_CONNECT[2..], s2);
    SampleCommits(rule, s2);
    RunNext(rule, s2, SAMPLE_CONNECT[2], [], SAMPLE_CONNECTED);
  }

  lemma {:induction false} SampleCommits(rule: ModelRule, s: State)
    requires s == INITIAL.(storage := StorageAvailable, pendingProvider := Some(SAMPLE), pendingWillBeSaved := true,
                           status := Connecting)
    ensures ConnectedOf(rule, s, SAMPLE, SAMPLE_MODELS, Some(SAMPLE)) == Success(SAMPLE_CONNECTED)
  {
    SortOfOne(SAMPLE);
    assert Position([], "a").None?;
    assert [] + [SAMPLE] == [SAMPLE];
    assert Upsert([], SAMPLE) == [SAMPLE];
    assert SAMPLE.(selectedModel := None) == SAMPLE;
  }

  // A health update that stores a session secret in the connected row makes a
  // pending model impossible to confirm, although Core accepts every model.
  lemma {:induction false} SecretRowStaysPending()
    ensures var rule := (m: string) => true;
            var s := Run(rule, INITIAL, SAMPLE_CONNECT + [UpdateHealth(SAMPLE_SECRET), BeginModelSelection("m")]);
            s.pendingModel == Some("m") && !Accepts(rule, s, ConfirmModel("m"))
  {
    var rule := (m: string) => true;
    var update, choose := UpdateHealth(SAMPLE_SECRET), BeginModelSelection("m");
    var s4 := SAMPLE_CONNECTED.(activeProvider := Some(SAMPLE_SECRET), savedProfiles := [SAMPLE_SECRET]);
    var s5 := s4.(pendingModel := Some("m"));
    SampleConnects(rule);
    RunConcat(rule, INITIAL, SAMPLE_CONNECT, [update, choose]);
    assert Position([SAMPLE], "a") == Some(0) && [SAMPLE][0 := SAMPLE_SECRET] == [SAMPLE_SECRET];
    RunNext(rule, SAMPLE_CONNECTED, update, [choose], s4);
    assert SAMPLE_MODELS[0].id == "m";
    RunNext(rule, s4, choose, [], s5);
    assert FindRow([SAMPLE_SECRET], "a") == Some(SAMPLE_SECRET);
  }

  // ----- Deletions -----

  // After any run at all, a pending deletion can be confirmed and can be rolled
  // back, and the result for any other profile is refused.
  lemma {:induction false} PendingDeletionResolves(
      rule: ModelRule, ops: seq<Op>, id: ProfileId, other: ProfileId, error: TranslationError)
    requires Run(rule, INITIAL, ops).pendingDeletion == Some(id)
    ensures var s := Run(rule, INITIAL, ops);
            && (Accepts(rule, s, ConfirmDeletion(other)) <==> other == id)
            && (Accepts(rule, s, DeletionFailed(other, error)) <==> other == id)
            && After(rule, s, ConfirmDeletion(id)).pendingDeletion.None?
            && After(rule, s, DeletionFailed(id, error)).pendingDeletion.None?
            && After(rule, s, DeletionFailed(id, error)).savedProfiles == s.savedProfiles
  {
    InvReachable(rule, ops);
  }

  // A deletion leaves every pointer to another row as it was, and clears exactly
  // those to the deleted one.
  lemma {:induction false} DeletionSparesOthers(rule: ModelRule, s: State, id: ProfileId)
    requires Accepts(rule, s, ConfirmDeletion(id))
    ensures var next := After(rule, s, ConfirmDeletion(id));
            && (s.selectedSavedId != Some(id) ==> next.selectedSavedId == s.selectedSavedId)
            && (s.persistedActiveId != Some(id) ==> next.persistedActiveId == s.persistedActiveId)
            && (s.activeSavedId != Some(id) ==> next.activeSavedId == s.activeSavedId)
            && next.selectedSavedId != Some(id) && next.persistedActiveId != Some(id) && next.activeSavedId != Some(id)
            && next.activeProvider == s.activeProvider && next.models == s.models
  {
    FieldsStep(rule, s, ConfirmDeletion(id));
  }

  // ----- Connections -----

  // The save outcome fits the save intent, and a saved row fits the profile.
  predicate MatchingSave(s: State, profile: Profile, saved: Option<Profile>) {
    && saved.Some? == s.pendingWillBeSaved
    && (saved.Some? ==> !HasSessionSecret(saved.value) && MatchExceptSecret(profile, saved.value))
  }

  // In any state a pending provider accepts its own result with every matching
  // save outcome and no other, and there is one. It has a result unless discovery
  // found a requested model that Core's rule refuses; it can be rolled back for
  // exactly the pending profile.
  lemma {:induction false} PendingConnectionResolves(
      rule: ModelRule, s: State, models: seq<Model>, saved: Option<Profile>, other: Profile, error: TranslationError)
    requires s.pendingProvider.Some?
    ensures var wanted := s.pendingProvider.value.selectedModel;
            Normalised(rule, s.pendingProvider.value, models).Some? <==>
              (wanted.Some? && HasModel(models, wanted.value) ==> rule(wanted.value))
    ensures var own := Normalised(rule, s.pendingProvider.value, models);
            own.Some? ==>
              && (Accepts(rule, s, Connected(own.value, models, saved)) <==> MatchingSave(s, own.value, saved))
              && exists row :: MatchingSave(s, own.value, row)
    ensures Accepts(rule, s, ConnectionFailed(other, error)) <==> other == s.pendingProvider.value
    ensures After(rule, s, ConnectionFailed(s.pendingProvider.value, error)).pendingProvider.None?
  {
    var own := Normalised(rule, s.pendingProvider.value, models);
    if own.Some? {
      assert MatchingSave(s, own.value, if s.pendingWillBeSaved then Some(own.value.(secret := None)) else None);
    }
  }
}
