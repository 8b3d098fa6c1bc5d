/** Where the live session comes from. */
module Sessions {
  import opened Wrappers
  import opened Profiles
  import opened Transitions
  import opened Invariant
  import opened Runs
  import opened SavedRuns

  datatype LiveSession = LiveSession(profile: Profile, models: seq<Model>)

  // The session of the last accepted connection result of a run.
  function LastSession(rule: ModelRule, s: State, ops: seq<Op>, current: Option<LiveSession>): Option<LiveSession>
    decreases |ops|
  {
    if ops == [] then current
    else LastSession(rule, After(rule, s, ops[0]), ops[1..], NextSession(rule, s, ops[0], current))
  }

  function NextSession(rule: ModelRule, s: State, op: Op, current: Option<LiveSession>): Option<LiveSession> {
    if op.Connected? && Accepts(rule, s, op) then Some(LiveSession(op.profile, op.models)) else current
  }

  // The provider identifier and the models are those of the session.
  predicate Serves(s: State, session: Option<LiveSession>) {
    match session
    case None => s.activeProvider.None? && s.models == []
    case Some(live) =>
      s.activeProvider.Some? && s.activeProvider.value.id == live.profile.id && s.models == live.models
  }

  function SansModel(profile: Profile): Profile {
    profile.(selectedModel := None)
  }

  // The whole provider is that of the session, up to its selected model.
  predicate Intact(s: State, session: Option<LiveSession>) {
    match session
    case None => s.activeProvider.None?
    case Some(live) => s.activeProvider.Some? && SansModel(s.activeProvider.value) == SansModel(live.profile)
  }

  // A health update of a saved row that has the live provider's identifier but
  // differs from it in more than the selected model.
  predicate ReplacesProvider(s: State, op: Op) {
    && op.UpdateHealth?
    && Position(s.savedProfiles, op.profile.id).Some?
    && s.activeProvider.Some? && s.activeProvider.value.id == op.profile.id
    && SansModel(s.activeProvider.value) != SansModel(op.profile)
  }

  predicate KeepsProvider(s: State, op: Op) {
    !ReplacesProvider(s, op)
  }

  // What a call does to the provider and the models: a connection result commits
  // both, a confirmed model changes the selected model only, and a health update
  // replaces the provider of its identifier.
  predicate Continues(s: State, op: Op, accepted: bool, next: State) {
    if op.Connected? && accepted then next.activeProvider == Some(op.profile) && next.models == op.models
    else
      && next.models == s.models
      && next.activeProvider.Some? == s.activeProvider.Some?
      && (s.activeProvider.Some? ==>
            var was, now := s.activeProvider.value, next.activeProvider.value;
            if op.UpdateHealth? && Position(s.savedProfiles, op.profile.id).Some? && was.id == op.profile.id
            then now == op.profile
            else SansModel(now) == SansModel(was))
  }

  lemma {:induction false} ProviderStep(rule: ModelRule, s: State, op: Op)
    ensures Continues(s, op, Accepts(rule, s, op), After(rule, s, op))
  {
    if IsWorkspaceOp(op) {
      WorkspaceContinues(rule, s, op);
    } else if !IsRowOp(op) {
      RequestContinues(rule, s, op);
    } else {
      RowContinues(rule, s, op);
    }
  }

  lemma {:induction false} WorkspaceContinues(rule: ModelRule, s: State, op: Op)
    requires IsWorkspaceOp(op)
    ensures Continues(s, op, Accepts(rule, s, op), After(rule, s, op))
  {
    WorkspaceFrame(rule, s, op);
  }

  lemma {:induction false} RowContinues(rule: ModelRule, s: State, op: Op)
    requires IsRowOp(op)
    ensures Continues(s, op, Accepts(rule, s, op), After(rule, s, op))
  {
    if op.ConfirmModel? && Accepts(rule, s, op) {
      ConfirmModelSupplies(rule, s, op.model);
    }
  }

  lemma {:induction false} RequestContinues(rule: ModelRule, s: State, op: Op)
    requires !IsRowOp(op) && !IsWorkspaceOp(op)
    ensures Continues(s, op, Accepts(rule, s, op), After(rule, s, op))
  {
  }

  lemma {:induction false} SessionStep(rule: ModelRule, s: State, op: Op, current: Option<LiveSession>)
    ensures Serves(s, current) ==> Serves(After(rule, s, op), NextSession(rule, s, op, current))
    ensures Intact(s, current) ==>
              (Intact(After(rule, s, op), NextSession(rule, s, op, current)) <==> KeepsProvider(s, op))
  {
    ProviderStep(rule, s, op);
    SessionContinues(s, op, Accepts(rule, s, op), After(rule, s, op), current, NextSession(rule, s, op, current));
  }

  lemma {:induction false} SessionContinues(
      s: State, op: Op, accepted: bool, next: State, current: Option<LiveSession>, later: Option<LiveSession>)
    requires Continues(s, op, accepted, next)
    requires later == if op.Connected? && accepted then Some(LiveSession(op.profile, op.models)) else current
    ensures Serves(s, current) ==> Serves(next, later)
    ensures Intact(s, current) ==> (Intact(next, later) <==> KeepsProvider(s, op))
  {
    if s.activeProvider.Some? && next.activeProvider.Some? {
      assert SansModel(s.activeProvider.value).id == s.activeProvider.value.id;
      assert SansModel(next.activeProvider.value).id == next.activeProvider.value.id;
    }
    if current.Some? {
      assert SansModel(current.value.profile).id == current.value.profile.id;
    }
  }

  lemma {:induction false} SessionRun(rule: ModelRule, s: State, ops: seq<Op>, current: Option<LiveSession>)
    requires Serves(s, current)
    ensures Serves(Run(rule, s, ops), LastSession(rule, s, ops, current))
    decreases |ops|
  {
    if ops != [] {
      SessionStep(rule, s, ops[0], current);
      SessionRun(rule, After(rule, s, ops[0]), ops[1..], NextSession(rule, s, ops[0], current));
    }
  }

  // The active provider's identifier and the model list are those of the last
  // accepted connection, whatever failed, stale, deleted or lost in between.
  lemma {:induction false} SessionProvenance(rule: ModelRule, ops: seq<Op>)
    ensures Serves(Run(rule, INITIAL, ops), LastSession(rule, INITIAL, ops, None))
  {
    SessionRun(rule, INITIAL, ops, None);
  }

  predicate IntactThroughout(rule: ModelRule, s: State, ops: seq<Op>, current: Option<LiveSession>)
    decreases |ops|
  {
    Intact(s, current)
    && (ops != [] ==>
          IntactThroughout(rule, After(rule, s, ops[0]), ops[1..], NextSession(rule, s, ops[0], current)))
  }

  // The live provider is the last connected profile, up to its selected model,
  // throughout a run if and only if no health update replaces it.
  lemma {:induction false} IntactRun(rule: ModelRule, s: State, ops: seq<Op>, current: Option<LiveSession>)
    requires Intact(s, current)
    ensures IntactThroughout(rule, s, ops, current) <==> Every(rule, s, ops, KeepsProvider)
    decreases |ops|
  {
    if ops != [] {
      SessionStep(rule, s, ops[0], current);
      if KeepsProvider(s, ops[0]) {
        IntactRun(rule, After(rule, s, ops[0]), ops[1..], NextSession(rule, s, ops[0], current));
      }
    }
  }

  const SAMPLE_OTHER := SAMPLE.(baseEndpoint := "elsewhere")

  const SAMPLE_SWITCH := [
    Restore([SAMPLE], None), BeginConnection(SAMPLE_OTHER, false), Connected(SAMPLE_OTHER, [], None),
    UpdateHealth(SAMPLE)]

  const SAMPLE_RESTORED := INITIAL.(savedProfiles := [SAMPLE], storage := StorageAvailable)

  lemma {:induction false} SwitchBegins(rule: ModelRule)
    ensures After(rule, INITIAL, SAMPLE_SWITCH[0]) == SAMPLE_RESTORED
    ensures After(rule, SAMPLE_RESTORED, SAMPLE_SWITCH[1])
         == SAMPLE_RESTORED.(pendingProvider := Some(SAMPLE_OTHER), status := Connecting)
  {
    SortOfOne(SAMPLE);
  }

  lemma {:induction false} SwitchEnds(rule: ModelRule, s: State)
    requires s == SAMPLE_RESTORED.(activeProvider := Some(SAMPLE_OTHER), status := Ready)
    ensures After(rule, s, UpdateHealth(SAMPLE)) == s.(activeProvider := Some(SAMPLE))
  {
    assert Position([SAMPLE], "a") == Some(0) && [SAMPLE][0 := SAMPLE] == [SAMPLE];
  }

  // A health update of a saved row replaces a provider that was connected
  // without being saved, with its endpoint, when the identifiers are the same.
  lemma {:induction false} HealthReplacesProvider(rule: ModelRule)
    ensures LastSession(rule, INITIAL, SAMPLE_SWITCH, None) == Some(LiveSession(SAMPLE_OTHER, []))
    ensures Run(rule, INITIAL, SAMPLE_SWITCH).activeProvider == Some(SAMPLE)
    ensures Run(rule, INITIAL, SAMPLE_SWITCH).activeSavedId == None
  {
    var s2 := SAMPLE_RESTORED.(pendingProvider := Some(SAMPLE_OTHER), status := Connecting);
    var s3 := SAMPLE_RESTORED.(activeProvider := Some(SAMPLE_OTHER), status := Ready);
    var live := Some(LiveSession(SAMPLE_OTHER, []));
    SwitchBegins(rule);
    SessionNext(rule, INITIAL, SAMPLE_SWITCH[0], SAMPLE_SWITCH[1..], SAMPLE_RESTORED, None, None);
    SessionNext(rule, SAMPLE_RESTORED, SAMPLE_SWITCH[1], SAMPLE_SWITCH[2..], s2, None, None);
    SessionNext(rule, s2, SAMPLE_SWITCH[2], SAMPLE_SWITCH[3..], s3, None, live);
    SwitchEnds(rule, s3);
    SessionNext(rule, s3, SAMPLE_SWITCH[3], [], s3.(activeProvider := Some(SAMPLE)), live, live);
  }

  lemma {:induction false} SessionNext(
      rule: ModelRule, s: State, op: Op, rest: seq<Op>, next: State, current: Option<LiveSession>,
      later: Option<LiveSession>)
    requires After(rule, s, op) == next && NextSession(rule, s, op, current) == later
    ensures Run(rule, s, [op] + rest) == Run(rule, next, rest)
    ensures LastSession(rule, s, [op] + rest, current) == LastSession(rule, next, rest, later)
  {
    assert ([op] + rest)[1..] == rest;
  }

  // Every translation request names a model that this connection discovered.
  lemma {:induction false} RequestNamesDiscoveredModel(rule: ModelRule, ops: seq<Op>)
    requires Accepts(rule, Run(rule, INITIAL, ops), BeginTranslation)
    ensures var s := Run(rule, INITIAL, ops);
            var session := LastSession(rule, INITIAL, ops, None);
            && session.Some?
            && s.selectedModel.Some?
            && HasModel(session.value.models, RequestOf(s).modelId)
  {
    InvReachable(rule, ops);
    SessionProvenance(rule, ops);
  }
}
