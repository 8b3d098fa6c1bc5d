/**
 The saved-profile list refines a map from identifier to profile: sorting keeps
 the map, upsert is a map update and removal is a map removal; and an ordered
 list is determined by its map.
 */
module SavedRows {
  import opened Wrappers
  import opened Ordering
  import opened Profiles

  predicate HasId(rows: seq<Profile>, id: ProfileId) {
    exists p :: p in rows && p.id == id
  }

  ghost function AsMap(rows: seq<Profile>): (m: map<ProfileId, Profile>)
    requires UniqueIds(rows)
    ensures forall p :: p in rows ==> p.id in m && m[p.id] == p
    ensures forall id :: id in m ==> m[id] in rows && m[id].id == id
  {
    map p | p in rows :: p.id := p
  }

  ghost predicate Ordered(rows: seq<Profile>) {
    Sorted(RowLe, rows)
  }

  // Rows are ordered by display name, and rows of one name by identifier.
  lemma {:induction false} RowLeExactly(a: Profile, b: Profile)
    ensures a.displayName == b.displayName ==> (RowLe(a, b) <==> StringLe(a.id, b.id))
    ensures RowLe(a, b) ==> StringLe(a.displayName, b.displayName)
    ensures !StringLe(b.displayName, a.displayName) ==> RowLe(a, b)
  {
    StringLeTotal(a.displayName, b.displayName);
    StringLeTotal(a.displayName, a.displayName);
  }

  lemma {:induction false} RowOrder()
    ensures TotalPreorder(RowLe)
  {
    forall a: Profile, b: Profile
      ensures RowLe(a, b) || RowLe(b, a)
    {
      StringLeTotal(a.displayName, b.displayName);
      StringLeTotal(a.id, b.id);
    }
    forall a: Profile, b: Profile, c: Profile | RowLe(a, b) && RowLe(b, c)
      ensures RowLe(a, c)
    {
      RowLeTransitive(a, b, c);
    }
  }

  lemma {:induction false} RowLeTransitive(a: Profile, b: Profile, c: Profile)
    requires RowLe(a, b) && RowLe(b, c)
    ensures RowLe(a, c)
  {
    if a.displayName == b.displayName == c.displayName {
      StringLeTransitive(a.id, b.id, c.id);
    } else if a.displayName != b.displayName && b.displayName != c.displayName {
      StringLeTransitive(a.displayName, b.displayName, c.displayName);
      if a.displayName == c.displayName {
        StringLeAntisymmetric(a.displayName, b.displayName);
      }
    }
  }

  lemma {:induction false} RowLeAntisymmetric(a: Profile, b: Profile)
    requires RowLe(a, b) && RowLe(b, a)
    ensures a.id == b.id && a.displayName == b.displayName
  {
    if a.displayName != b.displayName {
      StringLeAntisymmetric(a.displayName, b.displayName);
    } else {
      StringLeAntisymmetric(a.id, b.id);
    }
  }

  lemma {:induction false} AtMostOnce(rows: seq<Profile>, p: Profile)
    requires UniqueIds(rows)
    ensures multiset(rows)[p] <= 1
  {
    if rows != [] {
      assert rows == [rows[0]] + rows[1..];
      AtMostOnce(rows[1..], p);
      if p == rows[0] {
        assert p !in rows[1..];
      }
    }
  }

  lemma {:induction false} TwiceAt(rows: seq<Profile>, i: nat, j: nat)
    requires i < j < |rows| && rows[i] == rows[j]
    ensures multiset(rows)[rows[i]] >= 2
  {
    assert rows == rows[..j] + rows[j..];
    assert rows[i] in rows[..j] && rows[i] in rows[j..] by {
      assert rows[..j][i] == rows[i] && rows[j..][0] == rows[j];
    }
    assert multiset(rows) == multiset(rows[..j]) + multiset(rows[j..]);
  }

  // Uniqueness of identifiers does not depend on the order of the rows.
  lemma {:induction false} UniqueIdsPermutation(a: seq<Profile>, b: seq<Profile>)
    requires multiset(a) == multiset(b) && UniqueIds(a)
    ensures UniqueIds(b)
  {
    forall i, j | 0 <= i < j < |b|
      ensures b[i].id != b[j].id
    {
      AtMostOnce(a, b[i]);
      if b[i] == b[j] {
        TwiceAt(b, i, j);
      } else {
        assert b[i] in multiset(a) && b[j] in multiset(a);
        var k :| 0 <= k < |a| && a[k] == b[i];
        var l :| 0 <= l < |a| && a[l] == b[j];
      }
    }
  }

  lemma {:induction false} SameElements(a: seq<Profile>, b: seq<Profile>)
    requires multiset(a) == multiset(b)
    ensures forall p :: p in a <==> p in b
  {
    assert forall p :: p in a <==> p in multiset(a);
    assert forall p :: p in b <==> p in multiset(b);
  }

  // Sorting keeps the represented map, and orders the list.
  lemma {:induction false} SortKeepsRows(rows: seq<Profile>)
    ensures Ordered(SortRows(rows)) && multiset(SortRows(rows)) == multiset(rows)
    ensures forall p :: p in SortRows(rows) <==> p in rows
    ensures UniqueIds(SortRows(rows)) <==> UniqueIds(rows)
    ensures UniqueIds(rows) ==> AsMap(SortRows(rows)) == AsMap(rows)
  {
    RowOrder();
    SortMultiset(RowLe, rows);
    SortSorted(RowLe, rows);
    SameElements(SortRows(rows), rows);
    if UniqueIds(rows) {
      UniqueIdsPermutation(rows, SortRows(rows));
    } else if UniqueIds(SortRows(rows)) {
      UniqueIdsPermutation(SortRows(rows), rows);
    }
  }

  // An ordered list with unique identifiers is the only one with its rows.
  lemma {:induction false} OrderedUnique(a: seq<Profile>, b: seq<Profile>)
    requires Ordered(a) && Ordered(b) && UniqueIds(a) && multiset(a) == multiset(b)
    ensures a == b
  {
    forall x, y | x in multiset(a) && y in multiset(a) && RowLe(x, y) && RowLe(y, x)
      ensures x == y
    {
      RowLeAntisymmetric(x, y);
      assert AsMap(a)[x.id] == x && AsMap(a)[y.id] == y;
    }
    SortedUnique(RowLe, a, b);
  }

  lemma {:induction false} SameMapSameRows(a: seq<Profile>, b: seq<Profile>)
    requires UniqueIds(a) && UniqueIds(b) && AsMap(a) == AsMap(b)
    ensures multiset(a) == multiset(b)
  {
    forall p
      ensures multiset(a)[p] == multiset(b)[p]
    {
      AtMostOnce(a, p);
      AtMostOnce(b, p);
      assert p in multiset(a) <==> p in a;
      assert p in multiset(b) <==> p in b;
      assert p in a <==> p.id in AsMap(a) && AsMap(a)[p.id] == p;
      assert p in b <==> p.id in AsMap(b) && AsMap(b)[p.id] == p;
    }
  }

  // The list is the unique ordered enumeration of its map.
  lemma {:induction false} MapDeterminesOrderedRows(a: seq<Profile>, b: seq<Profile>)
    requires UniqueIds(a) && UniqueIds(b) && Ordered(a) && Ordered(b) && AsMap(a) == AsMap(b)
    ensures a == b
  {
    SameMapSameRows(a, b);
    OrderedUnique(a, b);
  }

  lemma {:induction false} FindRowIsLookup(rows: seq<Profile>, id: ProfileId)
    requires UniqueIds(rows)
    ensures FindRow(rows, id) == if id in AsMap(rows) then Some(AsMap(rows)[id]) else None
    ensures HasId(rows, id) <==> id in AsMap(rows)
    ensures Position(rows, id).Some? <==> id in AsMap(rows)
  {
  }

  lemma {:induction false} ReplaceRow(rows: seq<Profile>, index: nat, p: Profile)
    requires UniqueIds(rows) && index < |rows| && rows[index].id == p.id
    ensures UniqueIds(rows[index := p])
    ensures AsMap(rows[index := p]) == AsMap(rows)[p.id := p]
  {
    var next := rows[index := p];
    assert next[index] == p;
    forall id | id in AsMap(next)
      ensures id in AsMap(rows)[p.id := p] && AsMap(next)[id] == AsMap(rows)[p.id := p][id]
    {
      var k :| 0 <= k < |next| && next[k] == AsMap(next)[id];
      if k != index { assert rows[k] in rows; }
    }
    forall id | id in AsMap(rows)
      ensures id in AsMap(next)
    {
      var k :| 0 <= k < |rows| && rows[k] == AsMap(rows)[id];
      assert next[k] in next;
    }
  }

  lemma {:induction false} AppendRow(rows: seq<Profile>, p: Profile)
    requires UniqueIds(rows) && p.id !in AsMap(rows)
    ensures UniqueIds(rows + [p])
    ensures AsMap(rows + [p]) == AsMap(rows)[p.id := p]
  {
    forall i | 0 <= i < |rows|
      ensures rows[i].id != p.id
    {
      assert rows[i] in rows;
    }
    assert forall q :: q in rows + [p] <==> q in rows || q == p;
  }

  // Saving a profile updates one key of the map and re-orders the list.
  lemma {:induction false} UpsertIsUpdate(rows: seq<Profile>, p: Profile)
    requires UniqueIds(rows)
    ensures UniqueIds(Upsert(rows, p)) && Ordered(Upsert(rows, p))
    ensures AsMap(Upsert(rows, p)) == AsMap(rows)[p.id := p]
  {
    match Position(rows, p.id) {
      case Some(index) =>
        ReplaceRow(rows, index, p);
        SortKeepsRows(rows[index := p]);
      case None =>
        AppendRow(rows, p);
        SortKeepsRows(rows + [p]);
    }
  }

  lemma {:induction false} RemoveAtElement(rows: seq<Profile>, index: nat, k: nat)
    requires index < |rows| && k < |rows| - 1
    ensures RemoveAt(rows, index)[k] == rows[if k < index then k else k + 1]
  {
  }

  lemma {:induction false} RemoveAtMembers(rows: seq<Profile>, index: nat, p: Profile)
    requires UniqueIds(rows) && index < |rows|
    ensures p in RemoveAt(rows, index) <==> p in rows && p.id != rows[index].id
  {
    var next := RemoveAt(rows, index);
    if p in next {
      var k :| 0 <= k < |next| && next[k] == p;
      RemoveAtElement(rows, index, k);
    }
    if p in rows && p.id != rows[index].id {
      var k :| 0 <= k < |rows| && rows[k] == p;
      RemoveAtElement(rows, index, if k < index then k else k - 1);
    }
  }

  lemma {:induction false} RemoveAtUnique(rows: seq<Profile>, index: nat)
    requires UniqueIds(rows) && index < |rows|
    ensures UniqueIds(RemoveAt(rows, index))
  {
    var next := RemoveAt(rows, index);
    forall i, j | 0 <= i < j < |next|
      ensures next[i].id != next[j].id
    {
      RemoveAtElement(rows, index, i);
      RemoveAtElement(rows, index, j);
    }
  }

  lemma {:induction false} RemoveAtOrdered(rows: seq<Profile>, index: nat)
    requires Ordered(rows) && index < |rows|
    ensures Ordered(RemoveAt(rows, index))
  {
    var next := RemoveAt(rows, index);
    forall i, j | 0 <= i < j < |next|
      ensures RowLe(next[i], next[j])
    {
      RemoveAtElement(rows, index, i);
      RemoveAtElement(rows, index, j);
    }
  }

  // Removing a row removes one key of the map and keeps the order of the rest.
  lemma {:induction false} RemoveIsRemoval(rows: seq<Profile>, index: nat)
    requires UniqueIds(rows) && index < |rows|
    ensures UniqueIds(RemoveAt(rows, index))
    ensures AsMap(RemoveAt(rows, index)) == AsMap(rows) - {rows[index].id}
    ensures Ordered(rows) ==> Ordered(RemoveAt(rows, index))
  {
    RemoveAtUnique(rows, index);
    forall p
      ensures p in RemoveAt(rows, index) <==> p in rows && p.id != rows[index].id
    {
      RemoveAtMembers(rows, index, p);
    }
    if Ordered(rows) {
      RemoveAtOrdered(rows, index);
    }
  }

  // A replacement in place keeps the order exactly when it fits between its neighbours.
  lemma {:induction false} ReplaceKeepsOrder(rows: seq<Profile>, index: nat, p: Profile)
    requires Ordered(rows) && index < |rows|
    ensures Ordered(rows[index := p]) <==>
              (index > 0 ==> RowLe(rows[index - 1], p)) && (index + 1 < |rows| ==> RowLe(p, rows[index + 1]))
  {
    var next := rows[index := p];
    if (index > 0 ==> RowLe(rows[index - 1], p)) && (index + 1 < |rows| ==> RowLe(p, rows[index + 1])) {
      forall i, j | 0 <= i < j < |next|
        ensures RowLe(next[i], next[j])
      {
        if j == index && i != index - 1 {
          RowLeTransitive(rows[i], rows[index - 1], p);
        } else if i == index && j != index + 1 {
          RowLeTransitive(p, rows[index + 1], rows[j]);
        }
      }
    }
    if Ordered(next) {
      assert index > 0 ==> RowLe(next[index - 1], next[index]);
      assert index + 1 < |rows| ==> RowLe(next[index], next[index + 1]);
    }
  }
}
