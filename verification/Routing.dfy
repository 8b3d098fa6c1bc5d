/** Reordering of the routing candidates: keyboard moves and drag-and-drop. */
module Routing {
  import opened Wrappers

  type Id = string

  // Rust's `isize` on a 64-bit target.
  const ISIZE_MAX := 0x7FFF_FFFF_FFFF_FFFF

  const ISIZE_MIN := -0x8000_0000_0000_0000

  type Isize = n: int | ISIZE_MIN <= n <= ISIZE_MAX

  function SaturatingAdd(a: Isize, b: Isize): Isize {
    if a + b > ISIZE_MAX then ISIZE_MAX else if a + b < ISIZE_MIN then ISIZE_MIN else a + b
  }

  function IndexOf(ids: seq<Id>, id: Id): (r: Option<nat>)
    ensures r.Some? ==> r.value < |ids| && ids[r.value] == id && id !in ids[..r.value]
    ensures r.None? ==> id !in ids
  {
    if ids == [] then None
    else if ids[0] == id then Some(0)
    else match IndexOf(ids[1..], id)
      case None => None
      case Some(k) =>
        assert ids[..k + 1] == [ids[0]] + ids[1..][..k];
        Some(k + 1)
  }

  function Swap(ids: seq<Id>, i: nat, j: nat): seq<Id>
    requires i < |ids| && j < |ids|
  {
    ids[i := ids[j]][j := ids[i]]
  }

  // The list after a keyboard move, or None when the move is refused: the
  // candidate is unknown or would leave the list.
  function Moved(ids: seq<Id>, id: Id, offset: int): Option<seq<Id>> {
    match IndexOf(ids, id)
    case None => None
    case Some(i) => if 0 <= i + offset < |ids| then Some(Swap(ids, i, i + offset)) else None
  }

  function InsertAt(ids: seq<Id>, k: nat, id: Id): seq<Id>
    requires k <= |ids|
  {
    ids[..k] + [id] + ids[k..]
  }

  function Removed(ids: seq<Id>, k: nat): seq<Id>
    requires k < |ids|
  {
    ids[..k] + ids[k + 1..]
  }

  // The list after a drag, or None when it is refused.
  function Dragged(ids: seq<Id>, dragged: Id, target: Id): Option<seq<Id>> {
    if dragged == target || IndexOf(ids, dragged).None? || IndexOf(ids, target).None? then None
    else
      var i, j := IndexOf(ids, dragged).value, IndexOf(ids, target).value;
      Some(InsertAt(Removed(ids, i), if i < j then j - 1 else j, dragged))
  }

  // The list that the two operations edit in place. A Rust slice never has more
  // than isize::MAX elements.
  class Candidates {
    var ids: seq<Id>

    constructor (ids: seq<Id>)
      ensures this.ids == ids
    {
      this.ids := ids;
    }

    method MoveRoutingProfileId(id: Id, offset: Isize) returns (moved: bool)
      requires |ids| <= ISIZE_MAX
      modifies this
      ensures moved <==> Moved(old(ids), id, offset).Some?
      ensures ids == if moved then Moved(old(ids), id, offset).value else old(ids)
    {
      var position := IndexOf(ids, id);
      if position.None? {
        return false;
      }
      var index: Isize := position.value;
      var target := SaturatingAdd(index, offset);
      if target < 0 || target >= |ids| {
        return false;
      }
      ids := ids[index := ids[target]][target := ids[index]];
      return true;
    }

    method MoveRoutingProfileIdBefore(dragged: Id, target: Id) returns (moved: bool)
      modifies this
      ensures moved <==> Dragged(old(ids), dragged, target).Some?
      ensures ids == if moved then Dragged(old(ids), dragged, target).value else old(ids)
    {
      if dragged == target {
        return false;
      }
      var draggedIndex := IndexOf(ids, dragged);
      if draggedIndex.None? {
        return false;
      }
      var targetIndex := IndexOf(ids, target);
      if targetIndex.None? {
        return false;
      }
      ids := ids[..draggedIndex.value] + ids[draggedIndex.value + 1..];
      var adjusted := if draggedIndex.value < targetIndex.value then targetIndex.value - 1 else targetIndex.value;
      ids := ids[..adjusted] + [dragged] + ids[adjusted..];
      return true;
    }
  }

  predicate Distinct(ids: seq<Id>) {
    forall i, j :: 0 <= i < j < |ids| ==> ids[i] != ids[j]
  }

  lemma {:induction false} IndexOfAt(ids: seq<Id>, k: nat)
    requires Distinct(ids) && k < |ids|
    ensures IndexOf(ids, ids[k]) == Some(k)
  {
  }

  // ----- Both operations only rearrange -----

  lemma {:induction false} SwapKeepsMultiset(ids: seq<Id>, i: nat, j: nat)
    requires i < |ids| && j < |ids|
    ensures multiset(Swap(ids, i, j)) == multiset(ids)
  {
  }

  lemma {:induction false} MovedKeepsMultiset(ids: seq<Id>, id: Id, offset: int)
    requires Moved(ids, id, offset).Some?
    ensures multiset(Moved(ids, id, offset).value) == multiset(ids)
  {
    var i := IndexOf(ids, id).value;
    SwapKeepsMultiset(ids, i, i + offset);
  }

  // A move exchanges the candidate with the one at its target and leaves all
  // others alone; the opposite move of the same candidate undoes it.
  lemma {:induction false} MoveUndone(ids: seq<Id>, id: Id, offset: int)
    requires Distinct(ids) && Moved(ids, id, offset).Some?
    ensures var i, moved := IndexOf(ids, id).value, Moved(ids, id, offset).value;
            && |moved| == |ids|
            && moved[i + offset] == id && moved[i] == ids[i + offset]
            && (forall j :: 0 <= j < |ids| && j != i && j != i + offset ==> moved[j] == ids[j])
            && Moved(moved, id, -offset) == Some(ids)
  {
    var i, moved := IndexOf(ids, id).value, Moved(ids, id, offset).value;
    assert Distinct(moved);
    IndexOfAt(moved, i + offset);
    assert Swap(moved, i + offset, i) == ids;
  }

  lemma {:induction false} FirstIndex(ids: seq<Id>, i: nat)
    requires i < |ids| && ids[i] !in ids[..i]
    ensures IndexOf(ids, ids[i]) == Some(i)
  {
    if i > 0 {
      assert ids[..i] == [ids[0]] + ids[1..][..i - 1];
      FirstIndex(ids[1..], i - 1);
    }
  }

  // On any list a move is accepted exactly if the candidate is there and the
  // place it goes to is in the list; the first such candidate moves.
  lemma {:induction false} MoveAcceptedExactly(ids: seq<Id>, id: Id, offset: int)
    ensures Moved(ids, id, offset).Some? <==>
              exists i :: 0 <= i < |ids| && ids[i] == id && id !in ids[..i] && 0 <= i + offset < |ids|
    ensures Moved(ids, id, offset).Some? ==>
              var i, moved := IndexOf(ids, id).value, Moved(ids, id, offset).value;
              moved == ids[i := ids[i + offset]][i + offset := id]
  {
    if i :| 0 <= i < |ids| && ids[i] == id && id !in ids[..i] && 0 <= i + offset < |ids| {
      FirstIndex(ids, i);
    }
  }

  // A drag is accepted exactly if it moves one candidate of the list to another.
  lemma {:induction false} DragAcceptedExactly(ids: seq<Id>, dragged: Id, target: Id)
    ensures Dragged(ids, dragged, target).Some? <==> dragged != target && dragged in ids && target in ids
  {
  }

  // Removing the dragged candidate and inserting it elsewhere.
  lemma {:induction false} Splice(ids: seq<Id>, i: nat, k: nat)
    requires i < |ids| && k < |ids|
    ensures multiset(InsertAt(Removed(ids, i), k, ids[i])) == multiset(ids)
    ensures |InsertAt(Removed(ids, i), k, ids[i])| == |ids|
    ensures InsertAt(Removed(ids, i), k, ids[i])[k] == ids[i]
    ensures Removed(InsertAt(Removed(ids, i), k, ids[i]), k) == Removed(ids, i)
  {
    var rest := Removed(ids, i);
    assert ids == ids[..i] + [ids[i]] + ids[i + 1..];
    assert multiset(ids) == multiset(rest) + multiset{ids[i]};
    assert rest == rest[..k] + rest[k..];
    assert multiset(rest) == multiset(rest[..k]) + multiset(rest[k..]);
  }

  // A drag keeps every candidate and the relative order of all others, and puts
  // the dragged one immediately before its target; it works on any list.
  lemma {:induction false} DraggedPlacesBefore(ids: seq<Id>, dragged: Id, target: Id)
    requires Dragged(ids, dragged, target).Some?
    ensures var result := Dragged(ids, dragged, target).value;
            && multiset(result) == multiset(ids)
            && |result| == |ids|
            && exists k :: 0 <= k < |result| - 1 && result[k] == dragged && result[k + 1] == target
                 && Removed(result, k) == Removed(ids, IndexOf(ids, dragged).value)
  {
    var i, j := IndexOf(ids, dragged).value, IndexOf(ids, target).value;
    var k := if i < j then j - 1 else j;
    Splice(ids, i, k);
    var result := Dragged(ids, dragged, target).value;
    assert result[k] == dragged && result[k + 1] == target;
  }

  // ----- Drag is repeated keyboard moves -----

  // Applies single-step keyboard moves of one candidate; a refused one does nothing.
  function Steps(ids: seq<Id>, id: Id, offset: int, n: nat): seq<Id>
    decreases n
  {
    if n == 0 then ids
    else match Moved(ids, id, offset)
      case None => Steps(ids, id, offset, n - 1)
      case Some(next) => Steps(next, id, offset, n - 1)
  }

  // The list with the element at index i carried to index k.
  function Carried(ids: seq<Id>, i: nat, k: nat): seq<Id>
    requires i < |ids| && k < |ids|
  {
    InsertAt(Removed(ids, i), k, ids[i])
  }

  lemma {:induction false} CarriedAt(ids: seq<Id>, i: nat, k: nat, j: nat)
    requires i < |ids| && k < |ids| && j < |ids|
    ensures |Carried(ids, i, k)| == |ids|
    ensures Carried(ids, i, k)[j] == if j == k then ids[i]
                                     else if i <= j < k then ids[j + 1]
                                     else if k < j <= i then ids[j - 1]
                                     else ids[j]
  {
  }

  lemma {:induction false} CarriedDistinct(ids: seq<Id>, i: nat, k: nat)
    requires Distinct(ids) && i < |ids| && k < |ids|
    ensures |Carried(ids, i, k)| == |ids| && Distinct(Carried(ids, i, k))
  {
    CarriedAt(ids, i, k, 0);
    forall a, b | 0 <= a < b < |ids|
      ensures Carried(ids, i, k)[a] != Carried(ids, i, k)[b]
    {
      CarriedAt(ids, i, k, a);
      CarriedAt(ids, i, k, b);
    }
  }

  // One keyboard step carries the candidate one place.
  lemma {:induction false} StepCarries(ids: seq<Id>, i: nat, offset: int)
    requires Distinct(ids) && i < |ids| && 0 <= i + offset < |ids| && (offset == 1 || offset == -1)
    ensures Moved(ids, ids[i], offset) == Some(Carried(ids, i, i + offset))
  {
    IndexOfAt(ids, i);
    var carried, swapped := Carried(ids, i, i + offset), Swap(ids, i, i + offset);
    CarriedAt(ids, i, i + offset, 0);
    forall j | 0 <= j < |ids|
      ensures carried[j] == swapped[j]
    {
      CarriedAt(ids, i, i + offset, j);
    }
    assert carried == swapped;
  }

  // A move keeps the relative order of all other candidates if and only if it
  // goes at most one place: a longer one exchanges two that may be far apart.
  lemma {:induction false} MoveKeepsOthers(ids: seq<Id>, id: Id, offset: int)
    requires Distinct(ids) && Moved(ids, id, offset).Some?
    ensures var i, moved := IndexOf(ids, id).value, Moved(ids, id, offset).value;
            |moved| == |ids| && (Removed(moved, i + offset) == Removed(ids, i) <==> -1 <= offset <= 1)
  {
    var i, moved := IndexOf(ids, id).value, Moved(ids, id, offset).value;
    if offset == 0 {
      assert moved == ids;
    } else if offset == 1 || offset == -1 {
      StepCarries(ids, i, offset);
      Splice(ids, i, i + offset);
    } else {
      LongMoveDisturbs(ids, i, i + offset);
    }
  }

  lemma {:induction false} LongMoveDisturbs(ids: seq<Id>, i: nat, j: nat)
    requires Distinct(ids) && i < |ids| && j < |ids| && (i + 1 < j || j + 1 < i)
    ensures Removed(Swap(ids, i, j), j) != Removed(ids, i)
  {
    var moved := Swap(ids, i, j);
    if i < j {
      assert Removed(ids, i)[i] == ids[i + 1] && Removed(moved, j)[i] == ids[j];
    } else {
      assert Removed(ids, i)[j] == ids[j] && Removed(moved, j)[j] == ids[j + 1];
    }
  }

  lemma {:induction false} CarryTwice(ids: seq<Id>, i: nat, j: nat, k: nat)
    requires i < |ids| && j < |ids| && k < |ids|
    ensures |Carried(ids, i, j)| == |ids|
    ensures Carried(Carried(ids, i, j), j, k) == Carried(ids, i, k)
  {
    Splice(ids, i, j);
  }

  lemma {:induction false} StepsOnce(ids: seq<Id>, i: nat, offset: int, n: nat)
    requires Distinct(ids) && i < |ids| && 0 <= i + offset < |ids| && (offset == 1 || offset == -1) && n > 0
    ensures var next := Carried(ids, i, i + offset);
            && |next| == |ids| && Distinct(next) && next[i + offset] == ids[i]
            && Steps(ids, ids[i], offset, n) == Steps(next, ids[i], offset, n - 1)
  {
    StepCarries(ids, i, offset);
    CarriedDistinct(ids, i, i + offset);
    CarriedAt(ids, i, i + offset, i + offset);
  }

  lemma {:induction false} CarriedSelf(ids: seq<Id>, i: nat)
    requires i < |ids|
    ensures Carried(ids, i, i) == ids
  {
  }

  // One step, and what is left of the way.
  lemma {:induction false} StepOnTheWay(ids: seq<Id>, i: nat, offset: int, k: nat, n: nat) returns (next: seq<Id>)
    requires Distinct(ids) && i < |ids| && k < |ids| && 0 <= i + offset < |ids| && n > 0
    requires offset == 1 || offset == -1
    ensures |next| == |ids| && Distinct(next) && next[i + offset] == ids[i]
    ensures Steps(ids, ids[i], offset, n) == Steps(next, ids[i], offset, n - 1)
    ensures Carried(next, i + offset, k) == Carried(ids, i, k)
  {
    next := Carried(ids, i, i + offset);
    StepsOnce(ids, i, offset, n);
    CarryTwice(ids, i, i + offset, k);
  }

  lemma {:induction false} StepsUp(ids: seq<Id>, i: nat, k: nat)
    requires Distinct(ids) && i <= k < |ids|
    ensures Steps(ids, ids[i], 1, k - i) == Carried(ids, i, k)
    decreases k - i
  {
    if i == k {
      CarriedSelf(ids, i);
    } else {
      var next := StepOnTheWay(ids, i, 1, k, k - i);
      StepsUp(next, i + 1, k);
    }
  }

  lemma {:induction false} StepsDown(ids: seq<Id>, i: nat, k: nat)
    requires Distinct(ids) && k <= i < |ids|
    ensures Steps(ids, ids[i], -1, i - k) == Carried(ids, i, k)
    decreases i - k
  {
    if i == k {
      CarriedSelf(ids, i);
    } else {
      var next := StepOnTheWay(ids, i, -1, k, i - k);
      StepsDown(next, i - 1, k);
    }
  }

  // On distinct candidates a drag gives the list that repeated single keyboard
  // steps of the dragged candidate give.
  lemma {:induction false} DragIsRepeatedSteps(ids: seq<Id>, dragged: Id, target: Id)
    requires Distinct(ids) && Dragged(ids, dragged, target).Some?
    ensures var i, j := IndexOf(ids, dragged).value, IndexOf(ids, target).value;
            Dragged(ids, dragged, target).value ==
              if i < j then Steps(ids, dragged, 1, j - 1 - i) else Steps(ids, dragged, -1, i - j)
  {
    var i, j := IndexOf(ids, dragged).value, IndexOf(ids, target).value;
    DraggedCarries(ids, dragged, target);
    if i < j {
      StepsUp(ids, i, j - 1);
    } else {
      StepsDown(ids, i, j);
    }
  }

  lemma {:induction false} DraggedCarries(ids: seq<Id>, dragged: Id, target: Id)
    requires Dragged(ids, dragged, target).Some?
    ensures var i, j := IndexOf(ids, dragged).value, IndexOf(ids, target).value;
            ids[i] == dragged && Dragged(ids, dragged, target).value == Carried(ids, i, if i < j then j - 1 else j)
  {
  }

  // ----- Keyboard moves reach every ordering -----

  datatype Move = Move(id: Id, offset: int)

  function ApplyMoves(ids: seq<Id>, moves: seq<Move>): Option<seq<Id>>
    decreases |moves|
  {
    if moves == [] then Some(ids)
    else match Moved(ids, moves[0].id, moves[0].offset)
      case None => None
      case Some(next) => ApplyMoves(next, moves[1..])
  }

  predicate SingleSteps(moves: seq<Move>) {
    forall i :: 0 <= i < |moves| ==> moves[i].offset == -1 || moves[i].offset == 1
  }

  lemma {:induction false} ApplyConcat(ids: seq<Id>, first: seq<Move>, second: seq<Move>)
    requires ApplyMoves(ids, first).Some?
    ensures ApplyMoves(ids, first + second) == ApplyMoves(ApplyMoves(ids, first).value, second)
    decreases |first|
  {
    if first == [] {
      assert first + second == second;
    } else {
      assert (first + second)[1..] == first[1..] + second;
      ApplyConcat(Moved(ids, first[0].id, first[0].offset).value, first[1..], second);
    }
  }

  // Accepted single steps that carry the element at i down to k.
  lemma {:induction false} MovesDown(ids: seq<Id>, i: nat, k: nat) returns (moves: seq<Move>)
    requires Distinct(ids) && k <= i < |ids|
    ensures SingleSteps(moves) && ApplyMoves(ids, moves) == Some(Carried(ids, i, k))
    decreases i - k
  {
    if i == k {
      moves := [];
      CarriedSelf(ids, i);
    } else {
      var next := Carried(ids, i, i - 1);
      StepCarries(ids, i, -1);
      CarriedDistinct(ids, i, i - 1);
      var rest := MovesDown(next, i - 1, k);
      moves := [Move(ids[i], -1)] + rest;
      assert moves[1..] == rest;
      CarryTwice(ids, i, i - 1, k);
    }
  }

  lemma {:induction false} PrefixAfterCarry(ids: seq<Id>, wanted: seq<Id>, i: nat, k: nat)
    requires k <= i < |ids| == |wanted| && k < |wanted|
    requires ids[..k] == wanted[..k] && ids[i] == wanted[k]
    ensures |Carried(ids, i, k)| == |ids| && Carried(ids, i, k)[..k + 1] == wanted[..k + 1]
  {
    forall j | 0 <= j <= k
      ensures |Carried(ids, i, k)| == |ids| && Carried(ids, i, k)[j] == wanted[j]
    {
      CarriedAt(ids, i, k, j);
      if j < k { assert ids[..k][j] == wanted[..k][j]; }
    }
  }

  // The element wanted at k is somewhere in the part not yet arranged.
  lemma {:induction false} WantedLater(ids: seq<Id>, wanted: seq<Id>, k: nat) returns (i: nat)
    requires Distinct(wanted) && multiset(ids) == multiset(wanted) && |ids| == |wanted|
    requires k < |wanted| && ids[..k] == wanted[..k]
    ensures k <= i < |ids| && ids[i] == wanted[k]
  {
    assert wanted[k] in multiset(ids);
    i :| 0 <= i < |ids| && ids[i] == wanted[k];
  }

  lemma {:induction false} ArrangeFrom(ids: seq<Id>, wanted: seq<Id>, k: nat) returns (moves: seq<Move>)
    requires Distinct(ids) && Distinct(wanted) && multiset(ids) == multiset(wanted)
    requires |ids| == |wanted| && k <= |wanted| && ids[..k] == wanted[..k]
    ensures SingleSteps(moves) && ApplyMoves(ids, moves) == Some(wanted)
    decreases |wanted| - k
  {
    if k == |wanted| {
      moves := [];
      assert ids == ids[..k] && wanted == wanted[..k];
    } else {
      var i := WantedLater(ids, wanted, k);
      var first := MovesDown(ids, i, k);
      var next := Carried(ids, i, k);
      CarriedDistinct(ids, i, k);
      Splice(ids, i, k);
      PrefixAfterCarry(ids, wanted, i, k);
      var rest := ArrangeFrom(next, wanted, k + 1);
      moves := first + rest;
      ApplyConcat(ids, first, rest);
    }
  }

  // Accepted single keyboard steps turn any ordering of distinct candidates into
  // any other.
  lemma {:induction false} StepsReachEveryOrdering(ids: seq<Id>, wanted: seq<Id>) returns (moves: seq<Move>)
    requires Distinct(ids) && Distinct(wanted) && multiset(ids) == multiset(wanted)
    ensures SingleSteps(moves) && ApplyMoves(ids, moves) == Some(wanted)
  {
    assert |multiset(ids)| == |ids| && |multiset(wanted)| == |wanted|;
    moves := ArrangeFrom(ids, wanted, 0);
  }
}
