/** Connecting, choosing a model, deleting a profile and translating exclude each other. */
module Exclusion {
  import opened Wrappers
  import opened Profiles
  import opened Transitions
  import opened Invariant
  import opened Runs
  import opened Guards

  // The client is connecting exactly while a provider is pending, and at most
  // one of the four activities is under way.
  predicate Exclusive(s: State) {
    && (s.status == Connecting <==> s.pendingProvider.Some?)
    && !(s.status == Connecting && s.pendingModel.Some?)
    && !(s.status == Connecting && s.pendingDeletion.Some?)
    && !(s.status.IsStreaming() && s.pendingModel.Some?)
    && !(s.status.IsStreaming() && s.pendingDeletion.Some?)
    && !(s.pendingModel.Some? && s.pendingDeletion.Some?)
  }

  predicate IsFree(s: State) {
    s.status != Connecting && s.pendingModel.None? && s.pendingDeletion.None?
  }

  // What the driver owes at each call of the operations that write the status
  // without a guard of their own.
  predicate DriverObligation(s: State, op: Op) {
    match op
    case ClearWorkspace => s.status != Connecting
    case CompleteDocument(_) => s.status != Connecting
    case CancelDocument(_) => s.status != Connecting
    case PauseDocument(_) => s.status != Connecting
    case FailDocument(_, _) => s.status != Connecting
    case RecordClientError(_) => s.status != Connecting
    case RecordOperationFailure(_) => s.status != Connecting
    case RecordStreamError(_) => IsFree(s)
    case StreamEvent(event) =>
      EventRefusal(s, event).None? ==>
        if event.Started? then s.status == Cancelling || IsFree(s)
        else event.IsTerminal() ==> s.status != Connecting
    case _ => true
  }

  // The obligation is exact: one step keeps the exclusion if and only if the
  // driver met it.
  lemma {:induction false} ExclusionStep(rule: ModelRule, s: State, op: Op)
    requires Inv(s) && Exclusive(s)
    ensures Exclusive(After(rule, s, op)) <==> DriverObligation(s, op)
  {
    if op.StreamEvent? {
      ExclusionEvent(s, op.event);
    } else if IsWorkspaceOp(op) {
      ExclusionWorkspace(rule, s, op);
    } else if Accepts(rule, s, op) {
      if IsRowOp(op) {
        ExclusionRows(rule, s, op);
      } else {
        ExclusionRequests(rule, s, op);
      }
    }
  }

  lemma {:induction false} ExclusionEvent(s: State, event: TranslationEvent)
    requires Exclusive(s)
    ensures StreamEventOf(s, event).Success? ==>
              (Exclusive(StreamEventOf(s, event).value) <==> DriverObligation(s, StreamEvent(event)))
  {
  }

  lemma {:induction false} ExclusionWorkspace(rule: ModelRule, s: State, op: Op)
    requires Exclusive(s) && IsWorkspaceOp(op) && !op.StreamEvent?
    ensures Exclusive(After(rule, s, op)) <==> DriverObligation(s, op)
  {
  }

  lemma {:induction false} ExclusionRows(rule: ModelRule, s: State, op: Op)
    requires Exclusive(s) && IsRowOp(op) && Accepts(rule, s, op)
    ensures Exclusive(After(rule, s, op))
  {
    if op.ConfirmModel? {
      ConfirmModelSupplies(rule, s, op.model);
    }
  }

  lemma {:induction false} ExclusionRequests(rule: ModelRule, s: State, op: Op)
    requires Exclusive(s) && !IsRowOp(op) && !IsWorkspaceOp(op) && Accepts(rule, s, op)
    ensures Exclusive(After(rule, s, op))
  {
  }

  // The four activities exclude each other throughout a run if and only if every
  // call of the run meets the obligation.
  lemma {:induction false} ExclusionRun(rule: ModelRule, s: State, ops: seq<Op>)
    requires Inv(s) && Exclusive(s)
    ensures Throughout(rule, s, ops, Exclusive) <==> Every(rule, s, ops, DriverObligation)
    decreases |ops|
  {
    if ops != [] {
      InvStep(rule, s, ops[0]);
      ExclusionStep(rule, s, ops[0]);
      if DriverObligation(s, ops[0]) {
        ExclusionRun(rule, After(rule, s, ops[0]), ops[1..]);
      }
    }
  }

  lemma {:induction false} ExclusionReachable(rule: ModelRule, ops: seq<Op>)
    requires Every(rule, INITIAL, ops, DriverObligation)
    ensures Exclusive(Run(rule, INITIAL, ops))
  {
    InvInitial();
    ExclusionRun(rule, INITIAL, ops);
    ThroughoutEnd(rule, INITIAL, ops, Exclusive);
  }

  // Clearing the workspace while connecting breaks the exclusion: the client is
  // disconnected with a provider still pending.
  lemma {:induction false} ClearWhileConnecting(rule: ModelRule, profile: Profile)
    requires profile.enabled
    ensures var s := Run(rule, INITIAL, [BeginConnection(profile, false), ClearWorkspace]);
            s.status == Disconnected && s.pendingProvider == Some(profile) && !Exclusive(s)
  {
    var connecting := INITIAL.(pendingProvider := Some(profile), status := Connecting);
    RunNext(rule, INITIAL, BeginConnection(profile, false), [ClearWorkspace], connecting);
    RunNext(rule, connecting, ClearWorkspace, [], ClearWorkspaceOf(connecting));
  }

  predicate UnguardedStatusWriter(op: Op) {
    op.ClearWorkspace? || op.CompleteDocument? || op.CancelDocument? || op.PauseDocument? || op.FailDocument?
    || op.RecordClientError? || op.RecordOperationFailure?
  }

  // A simpler discipline suffices: no unguarded status writer while connecting,
  // and stream traffic only while a stream is under way.
  predicate SimpleDiscipline(s: State, op: Op) {
    && (UnguardedStatusWriter(op) ==> s.status != Connecting)
    && ((op.StreamEvent? || op.RecordStreamError?) ==> s.status.IsStreaming())
  }

  lemma {:induction false} SimpleDisciplineSuffices(rule: ModelRule, s: State, ops: seq<Op>)
    requires Inv(s) && Exclusive(s) && Every(rule, s, ops, SimpleDiscipline)
    ensures Every(rule, s, ops, DriverObligation)
    decreases |ops|
  {
    if ops != [] {
      assert DriverObligation(s, ops[0]);
      InvStep(rule, s, ops[0]);
      ExclusionStep(rule, s, ops[0]);
      SimpleDisciplineSuffices(rule, After(rule, s, ops[0]), ops[1..]);
    }
  }

  // ----- What an activity under way blocks -----

  // Calls that start an activity or move the form selection.
  predicate Starts(op: Op) {
    op.BeginConnection? || op.SelectSaved? || op.BeginModelSelection? || op.BeginDeletion? || op.BeginTranslation?
    || op.BeginDocument?
  }

  // Calls that are refused before the client looks at what is under way.
  predicate IsUnfit(s: State, op: Op) {
    (op.BeginConnection? && !op.profile.enabled) || (op.BeginDeletion? && s.storage != StorageAvailable)
  }

  // Each activity under way refuses every start, with its own error; only a
  // pending model may be replaced by another.
  lemma {:induction false} UnderWayBlocks(rule: ModelRule, s: State, op: Op)
    requires Exclusive(s) && Starts(op) && !IsUnfit(s, op)
    ensures s.status == Connecting ==> Step(rule, s, op) == Failure(StillConnecting)
    ensures s.status.IsStreaming() ==> Step(rule, s, op) == Failure(Busy)
    ensures s.pendingDeletion.Some? ==> Step(rule, s, op) == Failure(ProfileDeletionPending)
    ensures s.pendingModel.Some? && !op.BeginModelSelection? ==> Step(rule, s, op) == Failure(ModelSelectionPending)
  {
    RefusedExactly(rule, s, op);
  }
}
