/** Where a call ends and where its arguments are cut, by position in the text. */
module CallPlaces {
  import opened Wrappers
  import opened CallScanner

  // Where a position stands: how many parentheses are open, whether it is in a
  // string, and whether a backslash comes right before it there.
  datatype Place = Place(depth: int, inString: bool, escaped: bool)

  function PlaceAt(text: string, k: nat): Place
    requires k <= |text|
  {
    if k == 0 then Place(1, false, false)
    else
      var before, c := PlaceAt(text, k - 1), text[k - 1];
      if before.inString then
        Place(before.depth, before.escaped || c != '"', !before.escaped && c == '\\')
      else
        Place(before.depth + (if c == '(' then 1 else if c == ')' then -1 else 0), c == '"', false)
  }

  // The parenthesis that closes the call stands here.
  predicate EndsCall(text: string, k: nat) {
    k < |text| && text[k] == ')' && PlaceAt(text, k).depth == 1 && !PlaceAt(text, k).inString
  }

  // A comma that separates two arguments stands here.
  predicate Separates(text: string, k: nat) {
    k < |text| && text[k] == ',' && PlaceAt(text, k).depth == 1 && !PlaceAt(text, k).inString
  }

  // The text up to here, cut at the separating commas.
  function CutAt(text: string, k: nat): (pieces: seq<string>)
    requires k <= |text|
    ensures pieces != []
  {
    if k == 0 then [""]
    else
      var before := CutAt(text, k - 1);
      if Separates(text, k - 1) then before + [""]
      else before[..|before| - 1] + [before[|before| - 1] + [text[k - 1]]]
  }

  predicate OpenUpTo(text: string, k: nat) {
    forall i: nat :: i < k ==> !EndsCall(text, i)
  }

  // What the scanner remembers at a position of an open call.
  predicate Remembers(m: Mode, text: string, k: nat)
    requires k <= |text|
  {
    var place := PlaceAt(text, k);
    && m.pieces + [m.current] == CutAt(text, k)
    && m.depth == place.depth >= 1 && m.inString == place.inString && m.escaped == place.escaped
  }

  lemma {:induction false} RemembersNext(m: Mode, text: string, k: nat)
    requires k < |text| && Remembers(m, text, k) && !EndsCall(text, k)
    requires m.escaped ==> m.inString
    ensures !Closes(m, text[k]) && Remembers(Advance(m, text[k]), text, k + 1)
    ensures Advance(m, text[k]).escaped ==> Advance(m, text[k]).inString
  {
    var pieces := CutAt(text, k);
    assert pieces[..|pieces| - 1] == m.pieces && pieces[|pieces| - 1] == m.current;
  }

  lemma {:induction false} ScanReaches(text: string, k: nat) returns (m: Mode)
    requires k <= |text| && OpenUpTo(text, k)
    ensures Remembers(m, text, k) && (m.escaped ==> m.inString)
    ensures Scan(OPENED, text) == Scan(m, text[k..])
  {
    if k == 0 {
      m := OPENED;
      assert text[0..] == text && [] + [""] == [""];
    } else {
      var before := ScanReaches(text, k - 1);
      RemembersNext(before, text, k - 1);
      m := Advance(before, text[k - 1]);
      assert text[k - 1..][1..] == text[k..];
    }
  }

  lemma {:induction false} ScanFindsEnd(text: string, k: nat)
    requires EndsCall(text, k) && OpenUpTo(text, k)
    ensures Scan(OPENED, text) == Some(Found(CutAt(text, k), text[k + 1..]))
  {
    var m := ScanReaches(text, k);
    assert text[k..][1..] == text[k + 1..];
  }

  lemma {:induction false} ScanFindsNone(text: string)
    requires OpenUpTo(text, |text|)
    ensures Scan(OPENED, text) == None
  {
    var m := ScanReaches(text, |text|);
    assert text[|text|..] == "";
  }

  // On any source: a call is found exactly if a parenthesis closes it, at the
  // first one that does, and its arguments are the stripped pieces between the
  // separating commas.
  lemma {:induction false} ArgumentsExactly(source: string, opening: nat)
    ensures var text := From(source, opening + 1);
            Arguments(source, opening) == None <==> OpenUpTo(text, |text|)
    ensures var text := From(source, opening + 1);
            forall k: nat :: EndsCall(text, k) && OpenUpTo(text, k) ==>
              Arguments(source, opening) == Some((StripAll(CutAt(text, k)), opening + 1 + k))
  {
    var text := From(source, opening + 1);
    forall k: nat | EndsCall(text, k) && OpenUpTo(text, k)
      ensures Arguments(source, opening) == Some((StripAll(CutAt(text, k)), opening + 1 + k))
    {
      ScanFindsEnd(text, k);
    }
    if OpenUpTo(text, |text|) {
      ScanFindsNone(text);
    } else {
      var k := FirstEnd(text, |text|);
    }
  }

  lemma {:induction false} FirstEnd(text: string, n: nat) returns (k: nat)
    requires !OpenUpTo(text, n)
    ensures EndsCall(text, k) && OpenUpTo(text, k)
  {
    if OpenUpTo(text, n - 1) {
      k := n - 1;
    } else {
      k := FirstEnd(text, n - 1);
    }
  }
}
