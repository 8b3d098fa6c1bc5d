/** A message catalog and its lookups. */
module Catalogs {
  import opened Wrappers
  import opened Locales

  // Plural slots by message context.
  type Messages = map<string, seq<string>>

  function Get(messages: Messages, key: string, fallback: string): string {
    if key in messages && messages[key] != [] then messages[key][0] else fallback
  }

  function GetPlural(messages: Messages, key: string, singular: string, plural: string, index: nat): string {
    var fallback := if index == 0 then singular else plural;
    if key !in messages then fallback
    else
      var slots := messages[key];
      if index < |slots| && slots[index] != "" then slots[index]
      else if slots != [] && slots[0] != "" then slots[0]
      else fallback
  }

  function PluralIndex(locale: UiLocale, count: nat): nat {
    match locale
    case Arabic => ArabicIndex(count)
    case PseudoRtlArabic => ArabicIndex(count)
    case French => if count > 1 then 1 else 0
    case Russian =>
      if count % 10 == 1 && count % 100 != 11 then 0
      else if 2 <= count % 10 <= 4 && !(12 <= count % 100 <= 14) then 1
      else 2
    case SimplifiedChinese => 0
    case TraditionalChinese => 0
    case Japanese => 0
    case Korean => 0
    case _ => if count != 1 then 1 else 0
  }

  function ArabicIndex(count: nat): nat {
    if count == 0 then 0
    else if count == 1 then 1
    else if count == 2 then 2
    else if 3 <= count % 100 <= 10 then 3
    else if 11 <= count % 100 <= 99 then 4
    else 5
  }

  function TextPlural(
    messages: Messages, locale: UiLocale, key: string, singular: string, plural: string, count: nat): string
  {
    GetPlural(messages, key, singular, plural, PluralIndex(locale, count))
  }

  predicate AnyText(slots: seq<string>) {
    exists i :: 0 <= i < |slots| && slots[i] != ""
  }

  // One catalog entry as a translator sees it.
  datatype Entry = Entry(context: string, id: string, slots: seq<string>)

  // Entries with no text at all are skipped; among entries of one context the
  // last one wins.
  function Merged(entries: seq<Entry>): Messages {
    if entries == [] then map[]
    else
      var last := entries[|entries| - 1];
      var before := Merged(entries[..|entries| - 1]);
      if AnyText(last.slots) then before[last.context := last.slots] else before
  }

  // The entries among the first n candidates, some of which may be unreadable.
  function Collect(candidate: nat -> Option<Entry>, n: nat): seq<Entry> {
    if n == 0 then []
    else
      Collect(candidate, n - 1)
      + match candidate(n - 1)
        case None => []
        case Some(entry) => [entry]
  }

  // One candidate added to a catalog: unreadable entries and entries without
  // text change nothing.
  function Added(before: Messages, entry: Option<Entry>): Messages {
    if entry.Some? && AnyText(entry.value.slots) then before[entry.value.context := entry.value.slots] else before
  }

  lemma {:induction false} MergedStep(candidate: nat -> Option<Entry>, n: nat)
    ensures Merged(Collect(candidate, n + 1)) == Added(Merged(Collect(candidate, n)), candidate(n))
  {
    var list := Collect(candidate, n);
    match candidate(n) {
      case None =>
        assert list + [] == list;
      case Some(entry) =>
        assert (list + [entry])[..|list + [entry]| - 1] == list;
    }
  }

  predicate IsContext(entry: Option<Entry>, key: string) {
    entry.Some? && entry.value.context == key
  }

  predicate Alike(x: Messages, y: Messages, key: string) {
    (key in x <==> key in y) && (key in x ==> x[key] == y[key])
  }

  // Candidates that differ at one index only give merges that agree on every
  // other context.
  lemma {:induction false} MergedElsewhere(
      a: nat -> Option<Entry>, b: nat -> Option<Entry>, n: nat, k: nat, key: string)
    requires forall i: nat :: i < n && i != k ==> a(i) == b(i)
    requires !IsContext(a(k), key) && !IsContext(b(k), key)
    ensures Alike(Merged(Collect(a, n)), Merged(Collect(b, n)), key)
  {
    if n > 0 {
      MergedElsewhere(a, b, n - 1, k, key);
      MergedStep(a, n - 1);
      MergedStep(b, n - 1);
      AddedAlike(Merged(Collect(a, n - 1)), a(n - 1), Merged(Collect(b, n - 1)), b(n - 1), key);
    }
  }

  lemma {:induction false} AddedAlike(x: Messages, c: Option<Entry>, y: Messages, d: Option<Entry>, key: string)
    requires Alike(x, y, key)
    requires c == d || (!IsContext(c, key) && !IsContext(d, key))
    ensures Alike(Added(x, c), Added(y, d), key)
  {
  }

  // The last entry of a context that has text.
  predicate IsLastOf(entries: seq<Entry>, key: string, i: nat) {
    && i < |entries| && entries[i].context == key && AnyText(entries[i].slots)
    && forall j :: i < j < |entries| && AnyText(entries[j].slots) ==> entries[j].context != key
  }

  // What a merge holds for a key is the last entry of that context that has text.
  lemma {:induction false} MergedLookup(entries: seq<Entry>, key: string)
    ensures key in Merged(entries) <==> exists i: nat :: IsLastOf(entries, key, i)
    ensures forall i: nat :: IsLastOf(entries, key, i) ==> Merged(entries)[key] == entries[i].slots
  {
    if entries != [] {
      var n := |entries| - 1;
      var before := entries[..n];
      MergedLookup(before, key);
      if AnyText(entries[n].slots) && entries[n].context == key {
        assert IsLastOf(entries, key, n);
      } else {
        forall i: nat | i < n
          ensures IsLastOf(entries, key, i) <==> IsLastOf(before, key, i)
        {
          LastOfPrefix(entries, key, i);
        }
        assert !IsLastOf(entries, key, n);
      }
    }
  }

  lemma {:induction false} LastOfPrefix(entries: seq<Entry>, key: string, i: nat)
    requires i < |entries| - 1
    requires !(AnyText(entries[|entries| - 1].slots) && entries[|entries| - 1].context == key)
    ensures IsLastOf(entries, key, i) <==> IsLastOf(entries[..|entries| - 1], key, i)
  {
    var n := |entries| - 1;
    var before := entries[..n];
    assert forall j :: 0 <= j < n ==> before[j] == entries[j];
  }

  predicate DistinctContexts(entries: seq<Entry>) {
    forall i, j :: 0 <= i < j < |entries| ==> entries[i].context != entries[j].context
  }

  // Entries that list a catalog: one for each key, with its slots.
  predicate Lists(entries: seq<Entry>, messages: Messages) {
    && DistinctContexts(entries)
    && (forall i :: 0 <= i < |entries| ==>
          && AnyText(entries[i].slots)
          && entries[i].context in messages
          && messages[entries[i].context] == entries[i].slots)
    && (forall key :: key in messages ==> exists i :: 0 <= i < |entries| && entries[i].context == key)
  }

  lemma {:induction false} MergedOfListing(entries: seq<Entry>, messages: Messages)
    requires Lists(entries, messages)
    ensures Merged(entries) == messages
  {
    forall key
      ensures key in Merged(entries) <==> key in messages
      ensures key in messages ==> Merged(entries)[key] == messages[key]
    {
      MergedLookup(entries, key);
      if i :| 0 <= i < |entries| && entries[i].context == key {
        assert IsLastOf(entries, key, i);
      }
    }
  }

  // ----- Entries without an identifier -----

  // The entries that have an identifier.
  function WithId(entries: seq<Entry>): seq<Entry> {
    if entries == [] then [] else (if entries[0].id != "" then [entries[0]] else []) + WithId(entries[1..])
  }

  // The same entries, those without an identifier stripped of their text.
  function Silenced(entries: seq<Entry>): (r: seq<Entry>)
    ensures |r| == |entries|
    ensures forall i :: 0 <= i < |r| ==> r[i] == if entries[i].id != "" then entries[i] else entries[i].(slots := [])
  {
    seq(|entries|, i requires 0 <= i < |entries| =>
      if entries[i].id != "" then entries[i] else entries[i].(slots := []))
  }

  lemma {:induction false} WithIdAppend(entries: seq<Entry>, last: Entry)
    ensures WithId(entries + [last]) == WithId(entries) + (if last.id != "" then [last] else [])
  {
    if entries == [] {
      assert entries + [last] == [last] && [last][1..] == [];
    } else {
      assert (entries + [last])[1..] == entries[1..] + [last];
      WithIdAppend(entries[1..], last);
    }
  }

  lemma {:induction false} MergedAppend(entries: seq<Entry>, last: Entry)
    ensures Merged(entries + [last]) == Added(Merged(entries), Some(last))
  {
    assert (entries + [last])[..|entries + [last]| - 1] == entries;
  }

  lemma {:induction false} MergedWithId(entries: seq<Entry>)
    ensures Merged(WithId(entries)) == Merged(Silenced(entries))
  {
    if entries != [] {
      var before, last := entries[..|entries| - 1], entries[|entries| - 1];
      assert entries == before + [last];
      MergedWithId(before);
      WithIdAppend(before, last);
      assert Silenced(entries) == Silenced(before) + [Silenced(entries)[|before|]];
      MergedAppend(Silenced(before), Silenced(entries)[|before|]);
      if last.id != "" {
        MergedAppend(WithId(before), last);
      } else {
        assert WithId(before) + [] == WithId(before);
      }
    }
  }

  // The entry has no identifier and wins its context.
  predicate WinsWithoutId(entries: seq<Entry>, i: nat) {
    i < |entries| && entries[i].id == "" && IsLastOf(entries, entries[i].context, i)
  }

  // An entry that has an identifier says the same, and wins among such entries.
  ghost predicate IsCovered(entries: seq<Entry>, i: nat)
    requires i < |entries|
  {
    exists j: nat :: IsLastOf(Silenced(entries), entries[i].context, j) && entries[j].slots == entries[i].slots
  }

  ghost predicate IdsSuffice(entries: seq<Entry>) {
    forall i: nat | WinsWithoutId(entries, i) :: IsCovered(entries, i)
  }

  // Dropping the entries without an identifier leaves the catalog as it is if
  // and only if those that win their context are covered.
  lemma {:induction false} DroppingIdsExactly(entries: seq<Entry>)
    ensures Merged(WithId(entries)) == Merged(entries) <==> IdsSuffice(entries)
  {
    MergedWithId(entries);
    if Merged(WithId(entries)) == Merged(entries) {
      forall i: nat | WinsWithoutId(entries, i)
        ensures IsCovered(entries, i)
      {
        MergedLookup(entries, entries[i].context);
        MergedLookup(Silenced(entries), entries[i].context);
      }
    }
    if IdsSuffice(entries) {
      forall key
        ensures Alike(Merged(entries), Merged(Silenced(entries)), key)
      {
        SameWinner(entries, key);
      }
      AlikeIsEqual(Merged(entries), Merged(Silenced(entries)));
    }
  }

  lemma {:induction false} AlikeIsEqual(x: Messages, y: Messages)
    requires forall key :: Alike(x, y, key)
    ensures x == y
  {
    forall key
      ensures key in x <==> key in y
      ensures key in x ==> x[key] == y[key]
    {
      assert Alike(x, y, key);
    }
  }

  lemma {:induction false} SameWinner(entries: seq<Entry>, key: string)
    requires IdsSuffice(entries)
    ensures Alike(Merged(entries), Merged(Silenced(entries)), key)
  {
    MergedLookup(entries, key);
    MergedLookup(Silenced(entries), key);
    if i: nat :| IsLastOf(entries, key, i) {
      if entries[i].id != "" {
        assert IsLastOf(Silenced(entries), key, i);
      } else {
        assert WinsWithoutId(entries, i) && IsCovered(entries, i);
      }
    } else {
      SilencedHasNone(entries, key);
    }
  }

  lemma {:induction false} SilencedHasNone(entries: seq<Entry>, key: string)
    requires forall i: nat :: !IsLastOf(entries, key, i)
    ensures forall i: nat :: !IsLastOf(Silenced(entries), key, i)
  {
    MergedLookup(entries, key);
    forall i: nat | i < |entries|
      ensures !(entries[i].context == key && AnyText(entries[i].slots))
    {
      if entries[i].context == key && AnyText(entries[i].slots) {
        var last := LastFrom(entries, key, i);
        assert false;
      }
    }
  }

  lemma {:induction false} LastFrom(entries: seq<Entry>, key: string, i: nat) returns (last: nat)
    requires i < |entries| && entries[i].context == key && AnyText(entries[i].slots)
    ensures IsLastOf(entries, key, last)
    decreases |entries| - i
  {
    if j: nat :| i < j < |entries| && entries[j].context == key && AnyText(entries[j].slots) {
      last := LastFrom(entries, key, j);
    } else {
      last := i;
    }
  }

  // When the contexts are distinct: every entry with text has an identifier.
  lemma {:induction false} IdsSufficeDistinct(entries: seq<Entry>)
    requires DistinctContexts(entries)
    ensures IdsSuffice(entries) <==>
              forall i :: 0 <= i < |entries| && AnyText(entries[i].slots) ==> entries[i].id != ""
  {
    forall i: nat | i < |entries| && AnyText(entries[i].slots)
      ensures entries[i].id == "" ==> WinsWithoutId(entries, i) && !IsCovered(entries, i)
    {
      assert IsLastOf(entries, entries[i].context, i);
      forall j: nat | IsLastOf(Silenced(entries), entries[i].context, j)
        ensures i == j
      {
      }
    }
  }

  // A singular lookup does come out empty, exactly when the last entry of the
  // context has text in another slot but none in the first.
  lemma {:induction false} GetIsEmpty(entries: seq<Entry>, key: string, fallback: string)
    requires fallback != ""
    ensures Get(Merged(entries), key, fallback) == "" <==>
              exists i: nat :: IsLastOf(entries, key, i) && entries[i].slots[0] == ""
  {
    MergedLookup(entries, key);
  }

  // A singular lookup answers with the first slot, or with the fallback when the
  // catalog does not hold the key.
  lemma {:induction false} GetAnswers(messages: Messages, key: string, fallback: string)
    ensures key !in messages || messages[key] == [] ==> Get(messages, key, fallback) == fallback
    ensures forall first, rest :: key in messages && messages[key] == [first] + rest ==>
              Get(messages, key, fallback) == first
  {
  }

  // A plural lookup answers with the slot at the index, or if that has no text
  // with the first slot, or if that has none either with the fallback: the
  // singular for index zero, the plural for every other one.
  lemma {:induction false} PluralAnswers(
      messages: Messages, key: string, singular: string, plural: string, index: nat)
    ensures var answer := GetPlural(messages, key, singular, plural, index);
            if HasSlot(messages, key, index) then answer == messages[key][index]
            else if HasSlot(messages, key, 0) then answer == messages[key][0]
            else answer == (if index == 0 then singular else plural)
  {
  }

  predicate HasSlot(messages: Messages, key: string, index: nat) {
    key in messages && index < |messages[key]| && messages[key][index] != ""
  }

  // ----- Plural rules -----

  // How many slots the catalog of a locale declares for a plural message.
  function DeclaredSlots(locale: UiLocale): nat {
    match locale
    case Arabic => 6
    case PseudoRtlArabic => 6
    case Russian => 3
    case SimplifiedChinese => 1
    case TraditionalChinese => 1
    case Japanese => 1
    case Korean => 1
    case _ => 2
  }

  // The rule of the `Plural-Forms` header of a locale's catalog.
  function DeclaredIndex(locale: UiLocale, n: nat): nat {
    match DeclaredSlots(locale)
    case 1 => 0
    case 2 =>
      if locale.French? || locale.BrazilianPortuguese? then (if n > 1 then 1 else 0) else (if n != 1 then 1 else 0)
    case 3 =>
      if n % 10 == 1 && n % 100 != 11 then 0
      else if n % 10 >= 2 && n % 10 <= 4 && (n % 100 < 10 || n % 100 >= 20) then 1
      else 2
    case _ =>
      if n == 0 then 0
      else if n == 1 then 1
      else if n == 2 then 2
      else if n % 100 >= 3 && n % 100 <= 10 then 3
      else if n % 100 >= 11 && n % 100 <= 99 then 4
      else 5
  }

  lemma {:induction false} LastDigitOf(n: nat)
    ensures n % 10 == n % 100 % 10
  {
    assert n == 100 * (n / 100) + n % 100;
    assert n == 10 * (10 * (n / 100) + n % 100 / 10) + n % 100 % 10;
  }

  lemma {:induction false} TeensEnd(r: nat)
    requires 10 <= r < 20
    ensures r % 10 == r - 10
  {
  }

  // The slot that the program computes is the one that the catalog's own rule
  // gives, except for the count zero in Brazilian Portuguese: its catalog declares
  // zero as singular, the program takes the plural.
  lemma {:induction false} PluralIndexFollowsCatalog(locale: UiLocale, count: nat)
    ensures PluralIndex(locale, count) == DeclaredIndex(locale, count) <==>
              !(locale == BrazilianPortuguese && count == 0)
    ensures PluralIndex(locale, count) < DeclaredSlots(locale)
  {
    LastDigitOf(count);
    if 10 <= count % 100 < 20 {
      TeensEnd(count % 100);
    }
  }

  // A plural lookup never comes out empty when neither fallback is empty.
  lemma {:induction false} PluralNeverEmpty(
      messages: Messages, locale: UiLocale, key: string, singular: string, plural: string, count: nat)
    requires singular != "" && plural != ""
    ensures TextPlural(messages, locale, key, singular, plural, count) != ""
  {
  }
}
