/** The saved rows and the restart default over runs of the client. */
module SavedRuns {
  import opened Wrappers
  import opened Profiles
  import opened Transitions
  import Ordering
  import opened SavedRows
  import opened RowUpdates
  import opened Invariant
  import opened Runs

  // ----- What each call does to the rows -----

  function Saving(saved: Option<Profile>): RowUpdate {
    if saved.Some? then Save(saved.value) else NoUpdate
  }

  // A restore builds the rows, a health update replaces one, a remembered
  // connection and a confirmed model save one, a confirmed deletion removes one,
  // and the loss of storage clears them. Refused and other calls leave them alone.
  function UpdateOf(rule: ModelRule, s: State, op: Op): RowUpdate {
    if Accepts(rule, s, op) then Intended(rule, s, op) else NoUpdate
  }

  function Intended(rule: ModelRule, s: State, op: Op): RowUpdate {
    match op
    case UpdateHealth(profile) => Replace(profile)
    case Restore(rows, _) => Build(rows)
    case StorageLost(_) => Clear
    case Connected(_, _, saved) => Saving(saved)
    case ConfirmModel(model) => Saving(SuppliedRow(rule, s, model))
    case ConfirmModelSaved(_, _, saved) => Saving(saved)
    case ConfirmDeletion(id) => Remove(id)
    case _ => NoUpdate
  }

  // The rows after a call and what its update brings: no session secret except by
  // a health update, and no new identifier except by a restore or a connection.
  predicate HasEffect(s: State, op: Op, update: RowUpdate, next: State) {
    && Applies(s.savedProfiles, update)
    && next.savedProfiles == Listed(s.savedProfiles, update)
    && (update.Replace? ==> op == UpdateHealth(update.row))
    && (update.Build? ==> op.Restore? && op.rows == update.rows)
    && (update.Save? && !op.Connected? ==> HasId(s.savedProfiles, update.row.id))
    && (IsClean(update) || update.Replace?)
  }

  lemma {:induction false} UpdateStep(rule: ModelRule, s: State, op: Op)
    ensures HasEffect(s, op, UpdateOf(rule, s, op), After(rule, s, op))
  {
    if IsWorkspaceOp(op) {
      WorkspaceEffect(rule, s, op);
    } else if !IsRowOp(op) {
      RequestEffect(rule, s, op);
    } else if op.ConfirmModel? || op.ConfirmModelSaved? {
      ModelEffect(rule, s, op);
    } else {
      RowEffect(rule, s, op);
    }
  }

  lemma {:induction false} WorkspaceEffect(rule: ModelRule, s: State, op: Op)
    requires IsWorkspaceOp(op)
    ensures HasEffect(s, op, UpdateOf(rule, s, op), After(rule, s, op))
  {
    WorkspaceFrame(rule, s, op);
    WorkspaceIntendsNothing(rule, s, op);
  }

  lemma {:induction false} WorkspaceIntendsNothing(rule: ModelRule, s: State, op: Op)
    requires IsWorkspaceOp(op)
    ensures Intended(rule, s, op) == NoUpdate
  {
  }

  lemma {:induction false} RowEffect(rule: ModelRule, s: State, op: Op)
    requires op.UpdateHealth? || op.Restore? || op.Connected? || op.ConfirmDeletion?
    ensures HasEffect(s, op, UpdateOf(rule, s, op), After(rule, s, op))
  {
    if op.Restore? && Accepts(rule, s, op) {
      RestoreEffect(s, op.rows, op.default);
    } else if op.Connected? && Accepts(rule, s, op) {
      ConnectedEffect(rule, s, op.profile, op.models, op.saved);
    }
  }

  lemma {:induction false} ModelEffect(rule: ModelRule, s: State, op: Op)
    requires op.ConfirmModel? || op.ConfirmModelSaved?
    ensures HasEffect(s, op, UpdateOf(rule, s, op), After(rule, s, op))
  {
    if !Accepts(rule, s, op) {
    } else if op.ConfirmModel? {
      ConfirmModelSupplies(rule, s, op.model);
      ConfirmEffect(rule, s, op, s.activeProvider.value.id, op.model, SuppliedRow(rule, s, op.model));
    } else {
      ConfirmEffect(rule, s, op, op.profileId, op.model, op.saved);
    }
  }

  lemma {:induction false} RequestEffect(rule: ModelRule, s: State, op: Op)
    requires !IsRowOp(op) && !IsWorkspaceOp(op)
    ensures HasEffect(s, op, UpdateOf(rule, s, op), After(rule, s, op))
  {
  }

  lemma {:induction false} RestoreEffect(s: State, rows: seq<Profile>, default: Option<ProfileId>)
    requires RestoreOf(s, rows, default).Success?
    ensures HasEffect(s, Restore(rows, default), Build(rows), RestoreOf(s, rows, default).value)
  {
    SortKeepsRows(rows);
  }

  lemma {:induction false} ConnectedEffect(
      rule: ModelRule, s: State, profile: Profile, models: seq<Model>, saved: Option<Profile>)
    requires ConnectedOf(rule, s, profile, models, saved).Success?
    ensures HasEffect(s, Connected(profile, models, saved), Saving(saved),
                    ConnectedOf(rule, s, profile, models, saved).value)
  {
  }

  lemma {:induction false} ConfirmEffect(
      rule: ModelRule, s: State, op: Op, id: ProfileId, model: string, saved: Option<Profile>)
    requires ConfirmModelSavedOf(rule, s, id, model, saved).Success?
    ensures HasEffect(s, op, Saving(saved), ConfirmModelSavedOf(rule, s, id, model, saved).value)
  {
  }

  // ----- The saved list is a map -----

  lemma {:induction false} SavedMapStep(rule: ModelRule, s: State, op: Op)
    requires Inv(s)
    ensures UniqueIds(After(rule, s, op).savedProfiles)
    ensures AsMap(After(rule, s, op).savedProfiles) == Mapped(AsMap(s.savedProfiles), UpdateOf(rule, s, op))
  {
    UpdateStep(rule, s, op);
    ListedIsMapped(s.savedProfiles, UpdateOf(rule, s, op));
  }

  function Updates(rule: ModelRule, s: State, ops: seq<Op>): seq<RowUpdate>
    decreases |ops|
  {
    if ops == [] then [] else [UpdateOf(rule, s, ops[0])] + Updates(rule, After(rule, s, ops[0]), ops[1..])
  }

  ghost function MappedAll(m: map<ProfileId, Profile>, updates: seq<RowUpdate>): map<ProfileId, Profile>
    decreases |updates|
  {
    if updates == [] then m else MappedAll(Mapped(m, updates[0]), updates[1..])
  }

  // The saved list refines a map: after any run it represents the map that the
  // updates of the run's calls give one after another.
  lemma {:induction false} SavedMapRun(rule: ModelRule, s: State, ops: seq<Op>)
    requires Inv(s)
    ensures UniqueIds(Run(rule, s, ops).savedProfiles)
    ensures AsMap(Run(rule, s, ops).savedProfiles) == MappedAll(AsMap(s.savedProfiles), Updates(rule, s, ops))
    decreases |ops|
  {
    if ops != [] {
      var next := After(rule, s, ops[0]);
      InvStep(rule, s, ops[0]);
      SavedMapStep(rule, s, ops[0]);
      SavedMapRun(rule, next, ops[1..]);
      assert Updates(rule, s, ops)[1..] == Updates(rule, next, ops[1..]);
    }
  }

  // A restore does not depend on the order in which the rows arrive: any
  // permutation gives the same state or the same refusal.
  lemma {:induction false} RestoreIgnoresOrder(s: State, a: seq<Profile>, b: seq<Profile>, default: Option<ProfileId>)
    requires multiset(a) == multiset(b)
    ensures RestoreOf(s, a, default) == RestoreOf(s, b, default)
  {
    SessionSecretRow(a);
    SessionSecretRow(b);
    SameElements(a, b);
    SortKeepsRows(a);
    SortKeepsRows(b);
    if UniqueIds(a) {
      UniqueIdsPermutation(a, b);
      OrderedUnique(SortRows(a), SortRows(b));
    } else if UniqueIds(b) {
      UniqueIdsPermutation(b, a);
    }
  }

  // ----- Secrets -----

  predicate SecretsPersistent(s: State) {
    !AnySessionSecret(s.savedProfiles)
  }

  // The call is not a health update that would store a session secret.
  predicate StoresNoSecret(s: State, op: Op) {
    op.UpdateHealth? && Position(s.savedProfiles, op.profile.id).Some? ==> !HasSessionSecret(op.profile)
  }

  lemma {:induction false} HealthUpdate(rule: ModelRule, s: State, profile: Profile)
    ensures UpdateOf(rule, s, UpdateHealth(profile)) ==
              if Position(s.savedProfiles, profile.id).Some? then Replace(profile) else NoUpdate
  {
  }

  // Saved rows without session secrets stay so, except that a health update
  // stores whatever profile it is given.
  lemma {:induction false} SecretsStep(rule: ModelRule, s: State, op: Op)
    requires Inv(s) && SecretsPersistent(s)
    ensures SecretsPersistent(After(rule, s, op)) <==> StoresNoSecret(s, op)
  {
    UpdateStep(rule, s, op);
    ListedSecrets(s.savedProfiles, UpdateOf(rule, s, op));
    if op.UpdateHealth? {
      HealthUpdate(rule, s, op.profile);
    }
  }

  // Saved rows are free of session secrets throughout a run if and only if no
  // health update of the run stores one.
  lemma {:induction false} SecretsRun(rule: ModelRule, s: State, ops: seq<Op>)
    requires Inv(s) && SecretsPersistent(s)
    ensures Throughout(rule, s, ops, SecretsPersistent) <==> Every(rule, s, ops, StoresNoSecret)
    decreases |ops|
  {
    if ops != [] {
      InvStep(rule, s, ops[0]);
      SecretsStep(rule, s, ops[0]);
      if StoresNoSecret(s, ops[0]) {
        SecretsRun(rule, After(rule, s, ops[0]), ops[1..]);
      }
    }
  }

  // ----- Order -----

  ghost predicate IsOrdered(s: State) {
    Ordered(s.savedProfiles)
  }

  // The call is not a health update that renames its row past a neighbour.
  predicate FitsInPlace(s: State, op: Op) {
    op.UpdateHealth? ==> Fits(s.savedProfiles, op.profile)
  }

  // Every operation leaves the saved list in (display name, id) order, except a
  // health update that renames its row past a neighbour.
  lemma {:induction false} OrderStep(rule: ModelRule, s: State, op: Op)
    requires Inv(s) && IsOrdered(s)
    ensures IsOrdered(After(rule, s, op)) <==> FitsInPlace(s, op)
  {
    UpdateStep(rule, s, op);
    ListedOrder(s.savedProfiles, UpdateOf(rule, s, op));
    if op.UpdateHealth? {
      HealthUpdate(rule, s, op.profile);
    }
  }

  // The saved list is ordered throughout a run if and only if every health
  // update of the run leaves its row between the same neighbours.
  lemma {:induction false} OrderRun(rule: ModelRule, s: State, ops: seq<Op>)
    requires Inv(s) && IsOrdered(s)
    ensures Throughout(rule, s, ops, IsOrdered) <==> Every(rule, s, ops, FitsInPlace)
    decreases |ops|
  {
    if ops != [] {
      InvStep(rule, s, ops[0]);
      OrderStep(rule, s, ops[0]);
      if FitsInPlace(s, ops[0]) {
        OrderRun(rule, After(rule, s, ops[0]), ops[1..]);
      }
    }
  }

  predicate KeepsName(s: State, op: Op) {
    op.UpdateHealth? && FindRow(s.savedProfiles, op.profile.id).Some? ==>
      FindRow(s.savedProfiles, op.profile.id).value.displayName == op.profile.displayName
  }

  // It is enough that health updates keep display names.
  lemma {:induction false} KeptNamesRun(rule: ModelRule, s: State, ops: seq<Op>)
    requires Inv(s) && IsOrdered(s) && Every(rule, s, ops, KeepsName)
    ensures Throughout(rule, s, ops, IsOrdered)
    decreases |ops|
  {
    if ops != [] {
      InvStep(rule, s, ops[0]);
      if ops[0].UpdateHealth? { KeptNameFits(s.savedProfiles, ops[0].profile); }
      OrderStep(rule, s, ops[0]);
      KeptNamesRun(rule, After(rule, s, ops[0]), ops[1..]);
    }
  }

  // ----- Examples -----

  // A plain profile for the examples below.
  const SAMPLE := Profile("a", "A", "", "", "", None, true, None, "")

  lemma {:induction false} SortOfOne(a: Profile)
    ensures SortRows([a]) == [a]
  {
    assert [a][1..] == [];
    assert Ordering.SortBy(RowLe, []) == [];
    assert Ordering.Insert(RowLe, a, []) == [a];
  }

  lemma {:induction false} SortOfTwo(a: Profile, b: Profile)
    requires RowLe(a, b)
    ensures SortRows([a, b]) == [a, b]
  {
    SortOfOne(b);
    assert [a, b][1..] == [b];
    assert Ordering.Insert(RowLe, a, [b]) == [a] + [b];
  }

  lemma {:induction false} RestoreSamples(s: State, a: Profile, b: Profile)
    requires s.status == Disconnected && s.activeProvider.None? && s.pendingProvider.None? && s.pendingDeletion.None?
    requires a.id != b.id && a.displayName == "A" && b.displayName == "B" && a.secret == b.secret == None
    ensures RestoreOf(s, [a, b], None) ==
              Success(s.(savedProfiles := [a, b], selectedSavedId := None, persistedActiveId := None,
                         activeSavedId := None, storage := StorageAvailable, error := None))
  {
    SortOfTwo(a, b);
  }

  // A health update that renames its row past the next one leaves the list out
  // of order: "C" before "B".
  lemma {:induction false} RenameBreaksOrder(rule: ModelRule)
    ensures var a, b := SAMPLE, SAMPLE.(id := "b", displayName := "B");
            Run(rule, INITIAL, [Restore([a, b], None), UpdateHealth(a.(displayName := "C"))]).savedProfiles
            == [a.(displayName := "C"), b]
    ensures var a, b := SAMPLE, SAMPLE.(id := "b", displayName := "B");
            !Ordered([a.(displayName := "C"), b])
  {
    var a, b := SAMPLE, SAMPLE.(id := "b", displayName := "B");
    var c := a.(displayName := "C");
    var restored := INITIAL.(savedProfiles := [a, b], storage := StorageAvailable);
    RestoreSamples(INITIAL, a, b);
    RunNext(rule, INITIAL, Restore([a, b], None), [UpdateHealth(c)], restored);
    assert Position([a, b], "a") == Some(0);
    RunNext(rule, restored, UpdateHealth(c), [], restored.(savedProfiles := [c, b]));
    assert !RowLe([c, b][0], [c, b][1]);
  }

  // A health update that carries a session secret stores it.
  lemma {:induction false} HealthStoresSecret(rule: ModelRule)
    ensures var a, b := SAMPLE, SAMPLE.(id := "b", displayName := "B");
            var update := UpdateHealth(a.(secret := Some(Session("key"))));
            !SecretsPersistent(Run(rule, INITIAL, [Restore([a, b], None), update]))
  {
    var a, b := SAMPLE, SAMPLE.(id := "b", displayName := "B");
    var c := a.(secret := Some(Session("key")));
    var restored := INITIAL.(savedProfiles := [a, b], storage := StorageAvailable);
    RestoreSamples(INITIAL, a, b);
    RunNext(rule, INITIAL, Restore([a, b], None), [UpdateHealth(c)], restored);
    assert Position([a, b], "a") == Some(0);
    RunNext(rule, restored, UpdateHealth(c), [], restored.(savedProfiles := [c, b]));
    assert HasSessionSecret([c, b][0]);
  }

  // ----- Saved identifiers do not come back -----

  // The operation, accepted here, brings a row with this identifier.
  predicate Introduces(rule: ModelRule, s: State, op: Op, id: ProfileId) {
    Accepts(rule, s, op) &&
    match op
    case Restore(rows, _) => HasId(rows, id)
    case Connected(_, _, saved) => saved.Some? && saved.value.id == id
    case _ => false
  }

  lemma {:induction false} RowsStep(rule: ModelRule, s: State, op: Op, id: ProfileId)
    requires Inv(s)
    ensures HasId(After(rule, s, op).savedProfiles, id) ==> HasId(s.savedProfiles, id) || Introduces(rule, s, op, id)
  {
    UpdateStep(rule, s, op);
    ListedIds(s.savedProfiles, UpdateOf(rule, s, op), id);
    BroughtIsIntroduced(rule, s, op, id);
  }

  lemma {:induction false} BroughtIsIntroduced(rule: ModelRule, s: State, op: Op, id: ProfileId)
    ensures Brings(UpdateOf(rule, s, op), id) ==> Introduces(rule, s, op, id) || HasId(s.savedProfiles, id)
  {
    UpdateStep(rule, s, op);
  }

  // An identifier enters the saved rows only through an accepted restore or an
  // accepted remembered connection.
  lemma {:induction false} NoResurrection(rule: ModelRule, s: State, ops: seq<Op>, id: ProfileId)
    requires Inv(s) && !HasId(s.savedProfiles, id)
    requires Every(rule, s, ops, (t: State, op: Op) => !Introduces(rule, t, op, id))
    ensures !HasId(Run(rule, s, ops).savedProfiles, id)
    decreases |ops|
  {
    if ops != [] {
      InvStep(rule, s, ops[0]);
      RowsStep(rule, s, ops[0], id);
      NoResurrection(rule, After(rule, s, ops[0]), ops[1..], id);
    }
  }

  // A confirmed deletion removes exactly its identifier, and no later model
  // confirmation, health update or other operation brings it back by itself.
  lemma {:induction false} DeletedStaysDeleted(rule: ModelRule, before: seq<Op>, id: ProfileId, after: seq<Op>)
    requires Accepts(rule, Run(rule, INITIAL, before), ConfirmDeletion(id))
    requires var s := After(rule, Run(rule, INITIAL, before), ConfirmDeletion(id));
             Every(rule, s, after, (t: State, op: Op) => !Introduces(rule, t, op, id))
    ensures !HasId(Run(rule, INITIAL, before + [ConfirmDeletion(id)] + after).savedProfiles, id)
  {
    var s := Run(rule, INITIAL, before);
    var next := After(rule, s, ConfirmDeletion(id));
    InvReachable(rule, before);
    InvStep(rule, s, ConfirmDeletion(id));
    UpdateStep(rule, s, ConfirmDeletion(id));
    ListedIds(s.savedProfiles, Remove(id), id);
    NoResurrection(rule, next, after, id);
    RunConcat(rule, INITIAL, before + [ConfirmDeletion(id)], after);
    RunConcat(rule, INITIAL, before, [ConfirmDeletion(id)]);
    assert Run(rule, s, [ConfirmDeletion(id)]) == next;
  }

  // After storage is lost, only a restore can make rows, pointers or a save
  // intent appear again.
  lemma {:induction false} StorageLossIsFinal(rule: ModelRule, s: State, ops: seq<Op>)
    requires Inv(s) && s.storage == StorageUnavailable
    requires Every(rule, s, ops, (t: State, op: Op) => !(op.Restore? && Accepts(rule, t, op)))
    ensures Run(rule, s, ops).storage == StorageUnavailable && Inv(Run(rule, s, ops))
    ensures Run(rule, s, ops).savedProfiles == [] && !Run(rule, s, ops).pendingWillBeSaved
    decreases |ops|
  {
    if ops != [] {
      InvStep(rule, s, ops[0]);
      StorageStep(rule, s, ops[0]);
      StorageLossIsFinal(rule, After(rule, s, ops[0]), ops[1..]);
    }
  }

  lemma {:induction false} StorageStep(rule: ModelRule, s: State, op: Op)
    ensures var next := After(rule, s, op).storage;
            if op.Restore? && Accepts(rule, s, op) then next == StorageAvailable
            else if op.StorageLost? then next == StorageUnavailable
            else next == s.storage
  {
  }

  // ----- The restart default -----

  // The operation, accepted here, makes this identifier the restart default.
  predicate ChoosesDefault(rule: ModelRule, s: State, op: Op, id: ProfileId) {
    Accepts(rule, s, op) &&
    match op
    case Restore(_, default) => default == Some(id)
    case Connected(_, _, saved) => saved.Some? && saved.value.id == id
    case _ => false
  }

  // The operation, accepted here, makes the restart default another one or none.
  predicate ReplacesDefault(rule: ModelRule, s: State, op: Op, id: ProfileId) {
    Accepts(rule, s, op) &&
    match op
    case Restore(_, default) => default != Some(id)
    case Connected(_, _, saved) => saved.Some? && saved.value.id != id
    case ConfirmDeletion(deleted) => deleted == id
    case StorageLost(_) => true
    case _ => false
  }

  lemma {:induction false} DefaultStep(rule: ModelRule, s: State, op: Op, id: ProfileId)
    ensures After(rule, s, op).persistedActiveId == Some(id) <==>
              ChoosesDefault(rule, s, op, id) || (s.persistedActiveId == Some(id) && !ReplacesDefault(rule, s, op, id))
  {
    if IsWorkspaceOp(op) {
      WorkspaceFrame(rule, s, op);
    } else if op.ConfirmModel? && Accepts(rule, s, op) {
      ConfirmModelSupplies(rule, s, op.model);
    }
  }

  // Choosing a row in the form, failed switches, model changes and health
  // updates never move the restart default: on any run it becomes a profile only
  // by a restore or a remembered connection that chooses it.
  lemma {:induction false} DefaultProvenance(rule: ModelRule, s: State, ops: seq<Op>, id: ProfileId)
    requires s.persistedActiveId != Some(id)
    requires Every(rule, s, ops, (t: State, op: Op) => !ChoosesDefault(rule, t, op, id))
    ensures Run(rule, s, ops).persistedActiveId != Some(id)
    decreases |ops|
  {
    if ops != [] {
      DefaultStep(rule, s, ops[0], id);
      DefaultProvenance(rule, After(rule, s, ops[0]), ops[1..], id);
    }
  }

  // And it stays a profile until that profile is deleted, another one is chosen
  // or storage is lost.
  lemma {:induction false} DefaultPersists(rule: ModelRule, s: State, ops: seq<Op>, id: ProfileId)
    requires s.persistedActiveId == Some(id)
    requires Every(rule, s, ops, (t: State, op: Op) => !ReplacesDefault(rule, t, op, id))
    ensures Run(rule, s, ops).persistedActiveId == Some(id)
    decreases |ops|
  {
    if ops != [] {
      DefaultStep(rule, s, ops[0], id);
      DefaultPersists(rule, After(rule, s, ops[0]), ops[1..], id);
    }
  }
}
