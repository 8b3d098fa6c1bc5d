/** The ways in which calls change the saved list, on the list and on the map that it represents. */
module RowUpdates {
  import opened Wrappers
  import opened Profiles
  import opened Transitions
  import opened SavedRows

  datatype RowUpdate =
    | NoUpdate
    | Build(rows: seq<Profile>)
    | Replace(row: Profile)
    | Save(row: Profile)
    | Remove(id: ProfileId)
    | Clear

  // A row is replaced or removed only where there is one, and rows are built
  // only from distinct identifiers.
  predicate Applies(rows: seq<Profile>, update: RowUpdate) {
    match update
    case Build(all) => UniqueIds(all)
    case Replace(row) => Position(rows, row.id).Some?
    case Remove(id) => Position(rows, id).Some?
    case _ => true
  }

  function Listed(rows: seq<Profile>, update: RowUpdate): seq<Profile>
    requires Applies(rows, update)
  {
    match update
    case NoUpdate => rows
    case Build(all) => SortRows(all)
    case Replace(row) => rows[Position(rows, row.id).value := row]
    case Save(row) => Upsert(rows, row)
    case Remove(id) => RemoveAt(rows, Position(rows, id).value)
    case Clear => []
  }

  ghost function Mapped(m: map<ProfileId, Profile>, update: RowUpdate): map<ProfileId, Profile> {
    match update
    case NoUpdate => m
    case Build(all) => if UniqueIds(all) then AsMap(all) else m
    case Replace(row) => m[row.id := row]
    case Save(row) => m[row.id := row]
    case Remove(id) => m - {id}
    case Clear => map[]
  }

  // On the represented map, building is building, saving and replacing set one
  // key, removing removes one, and clearing empties.
  lemma {:induction false} ListedIsMapped(rows: seq<Profile>, update: RowUpdate)
    requires UniqueIds(rows) && Applies(rows, update)
    ensures UniqueIds(Listed(rows, update))
    ensures AsMap(Listed(rows, update)) == Mapped(AsMap(rows), update)
  {
    match update
    case Build(all) => SortKeepsRows(all);
    case Replace(row) => ReplaceRow(rows, Position(rows, row.id).value, row);
    case Save(row) => UpsertIsUpdate(rows, row);
    case Remove(id) => RemoveIsRemoval(rows, Position(rows, id).value);
    case _ =>
  }

  // ----- Secrets -----

  lemma {:induction false} SessionSecretRow(rows: seq<Profile>)
    ensures AnySessionSecret(rows) <==> exists p :: p in rows && HasSessionSecret(p)
  {
    if exists p :: p in rows && HasSessionSecret(p) {
      var p :| p in rows && HasSessionSecret(p);
      var i :| 0 <= i < |rows| && rows[i] == p;
    }
  }

  lemma {:induction false} UpsertMembers(rows: seq<Profile>, p: Profile, q: Profile)
    requires UniqueIds(rows)
    ensures q in Upsert(rows, p) <==> q == p || (q in rows && q.id != p.id)
  {
    UpsertIsUpdate(rows, p);
    assert q in Upsert(rows, p) <==> q.id in AsMap(Upsert(rows, p)) && AsMap(Upsert(rows, p))[q.id] == q;
    assert q in rows <==> q.id in AsMap(rows) && AsMap(rows)[q.id] == q;
  }

  lemma {:induction false} SecretsReplace(rows: seq<Profile>, index: nat, p: Profile)
    requires index < |rows| && !AnySessionSecret(rows)
    ensures AnySessionSecret(rows[index := p]) <==> HasSessionSecret(p)
  {
    assert rows[index := p][index] == p;
  }

  lemma {:induction false} SecretsUpsert(rows: seq<Profile>, p: Profile)
    requires UniqueIds(rows) && !AnySessionSecret(rows)
    ensures AnySessionSecret(Upsert(rows, p)) <==> HasSessionSecret(p)
  {
    SessionSecretRow(rows);
    SessionSecretRow(Upsert(rows, p));
    UpsertMembers(rows, p, p);
    forall q | q in Upsert(rows, p)
      ensures q != p ==> !HasSessionSecret(q)
    {
      UpsertMembers(rows, p, q);
    }
  }

  lemma {:induction false} SecretsRemove(rows: seq<Profile>, index: nat)
    requires UniqueIds(rows) && index < |rows| && !AnySessionSecret(rows)
    ensures !AnySessionSecret(RemoveAt(rows, index))
  {
    SessionSecretRow(rows);
    SessionSecretRow(RemoveAt(rows, index));
    forall q | q in RemoveAt(rows, index)
      ensures !HasSessionSecret(q)
    {
      RemoveAtMembers(rows, index, q);
    }
  }

  // An update keeps the rows free of session secrets exactly if it brings none.
  predicate IsClean(update: RowUpdate) {
    match update
    case Build(all) => !AnySessionSecret(all)
    case Replace(row) => !HasSessionSecret(row)
    case Save(row) => !HasSessionSecret(row)
    case _ => true
  }

  lemma {:induction false} ListedSecrets(rows: seq<Profile>, update: RowUpdate)
    requires UniqueIds(rows) && Applies(rows, update) && !AnySessionSecret(rows)
    ensures !AnySessionSecret(Listed(rows, update)) <==> IsClean(update)
  {
    match update
    case Build(all) =>
      SessionSecretRow(all);
      SessionSecretRow(SortRows(all));
      SortKeepsRows(all);
    case Replace(row) => SecretsReplace(rows, Position(rows, row.id).value, row);
    case Save(row) => SecretsUpsert(rows, row);
    case Remove(id) => SecretsRemove(rows, Position(rows, id).value);
    case _ =>
  }

  // ----- Order -----

  // A row fits when it stays between the same neighbours.
  predicate Fits(rows: seq<Profile>, row: Profile) {
    match Position(rows, row.id)
    case None => true
    case Some(k) =>
      && (k > 0 ==> RowLe(rows[k - 1], row))
      && (k + 1 < |rows| ==> RowLe(row, rows[k + 1]))
  }

  lemma {:induction false} ListedOrder(rows: seq<Profile>, update: RowUpdate)
    requires UniqueIds(rows) && Applies(rows, update) && Ordered(rows)
    ensures Ordered(Listed(rows, update)) <==> (update.Replace? ==> Fits(rows, update.row))
  {
    match update
    case Build(all) => SortKeepsRows(all);
    case Replace(row) => ReplaceKeepsOrder(rows, Position(rows, row.id).value, row);
    case Save(row) => UpsertIsUpdate(rows, row);
    case Remove(id) => RemoveIsRemoval(rows, Position(rows, id).value);
    case _ =>
  }

  // A row that keeps the display name always fits.
  lemma {:induction false} KeptNameFits(rows: seq<Profile>, row: Profile)
    requires UniqueIds(rows) && Ordered(rows)
    requires FindRow(rows, row.id).Some? ==> FindRow(rows, row.id).value.displayName == row.displayName
    ensures Fits(rows, row)
  {
    match Position(rows, row.id) {
      case None =>
      case Some(k) =>
        var was := rows[k];
        assert was in rows;
        FindRowIsLookup(rows, row.id);
        assert AsMap(rows)[was.id] == was;
        assert k > 0 ==> RowLe(rows[k - 1], was);
        assert k + 1 < |rows| ==> RowLe(was, rows[k + 1]);
    }
  }

  // ----- Identifiers -----

  predicate Brings(update: RowUpdate, id: ProfileId) {
    match update
    case Build(all) => HasId(all, id)
    case Save(row) => row.id == id
    case _ => false
  }

  // Only building and saving can bring an identifier that was not there.
  lemma {:induction false} ListedIds(rows: seq<Profile>, update: RowUpdate, id: ProfileId)
    requires UniqueIds(rows) && Applies(rows, update)
    ensures HasId(Listed(rows, update), id) ==> HasId(rows, id) || Brings(update, id)
    ensures update == Remove(id) ==> !HasId(Listed(rows, update), id)
  {
    ListedIsMapped(rows, update);
    FindRowIsLookup(rows, id);
    FindRowIsLookup(Listed(rows, update), id);
    if update.Replace? {
      FindRowIsLookup(rows, update.row.id);
    } else if update.Build? {
      FindRowIsLookup(update.rows, id);
    }
  }
}
