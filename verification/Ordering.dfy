/** The orders and the stable sort behind `sort_by` and `sort_by_key`. */
module Ordering {

  // Comparison of Rust strings: lexicographic on UTF-8 bytes, which is the same
  // order as lexicographic on Unicode scalar values.
  predicate StringLe(a: string, b: string) {
    if a == [] then true
    else if b == [] then false
    else if a[0] != b[0] then a[0] < b[0]
    else StringLe(a[1..], b[1..])
  }

  // A text comes first exactly if it is a prefix of the other, or has the smaller
  // character where they first differ.
  lemma {:induction false} StringLeExactly(a: string, b: string)
    ensures StringLe(a, b) <==>
              a <= b || exists k :: 0 <= k < |a| && k < |b| && a[..k] == b[..k] && a[k] < b[k]
  {
    if a != [] && b != [] {
      if a[0] == b[0] {
        StringLeExactly(a[1..], b[1..]);
        if k :| 0 <= k < |a| - 1 && k < |b| - 1 && a[1..][..k] == b[1..][..k] && a[1..][k] < b[1..][k] {
          assert a[..k + 1] == [a[0]] + a[1..][..k] && b[..k + 1] == [b[0]] + b[1..][..k];
          assert a[k + 1] < b[k + 1];
        }
        if k :| 0 <= k < |a| && k < |b| && a[..k] == b[..k] && a[k] < b[k] {
          assert a[1..][..k - 1] == a[..k][1..] && b[1..][..k - 1] == b[..k][1..];
          assert a[1..][k - 1] < b[1..][k - 1];
        }
        assert a <= b <==> a[1..] <= b[1..] by { PrefixTail(a, b); }
      } else {
        forall k | 0 < k < |a| && k < |b|
          ensures a[..k] != b[..k]
        {
          FirstOfPrefix(a, b, k);
        }
        if a[0] < b[0] {
          assert a[..0] == b[..0];
        }
      }
    }
  }

  lemma {:induction false} FirstOfPrefix(a: string, b: string, k: nat)
    requires 0 < k <= |a| && k <= |b| && a[0] != b[0]
    ensures a[..k] != b[..k]
  {
    assert a[..k][0] != b[..k][0];
  }

  lemma {:induction false} PrefixTail(a: string, b: string)
    requires a != [] && b != [] && a[0] == b[0]
    ensures a <= b <==> a[1..] <= b[1..]
  {
    assert a == [a[0]] + a[1..] && b == [b[0]] + b[1..];
    if a <= b {
      assert b[1..][..|a| - 1] == b[..|a|][1..];
    }
    if a[1..] <= b[1..] {
      assert b[..|a|] == [b[0]] + b[1..][..|a| - 1];
    }
  }

  lemma {:induction false} StringLeTotal(a: string, b: string)
    ensures StringLe(a, b) || StringLe(b, a)
  {
    if a != [] && b != [] && a[0] == b[0] {
      StringLeTotal(a[1..], b[1..]);
    }
  }

  lemma {:induction false} StringLeAntisymmetric(a: string, b: string)
    requires StringLe(a, b) && StringLe(b, a)
    ensures a == b
  {
    if a != [] && b != [] {
      StringLeAntisymmetric(a[1..], b[1..]);
      assert a == [a[0]] + a[1..] && b == [b[0]] + b[1..];
    }
  }

  lemma {:induction false} StringLeTransitive(a: string, b: string, c: string)
    requires StringLe(a, b) && StringLe(b, c)
    ensures StringLe(a, c)
  {
    if a != [] && b != [] && c != [] && a[0] == b[0] == c[0] {
      StringLeTransitive(a[1..], b[1..], c[1..]);
    }
  }

  ghost predicate TotalPreorder<T(!new)>(le: (T, T) -> bool) {
    && (forall x, y :: le(x, y) || le(y, x))
    && (forall x, y, z :: le(x, y) && le(y, z) ==> le(x, z))
  }

  ghost predicate Sorted<T>(le: (T, T) -> bool, s: seq<T>) {
    forall i, j :: 0 <= i < j < |s| ==> le(s[i], s[j])
  }

  function Insert<T>(le: (T, T) -> bool, x: T, s: seq<T>): seq<T> {
    if s == [] || le(x, s[0]) then [x] + s else [s[0]] + Insert(le, x, s[1..])
  }

  // A stable sort: an element is put before the ones it does not exceed, and
  // elements are inserted from the right.
  function SortBy<T>(le: (T, T) -> bool, s: seq<T>): seq<T> {
    if s == [] then [] else Insert(le, s[0], SortBy(le, s[1..]))
  }

  lemma {:induction false} InsertMultiset<T>(le: (T, T) -> bool, x: T, s: seq<T>)
    ensures multiset(Insert(le, x, s)) == multiset(s) + multiset{x}
  {
    if s != [] && !le(x, s[0]) {
      InsertMultiset(le, x, s[1..]);
      assert s == [s[0]] + s[1..];
    }
  }

  lemma {:induction false} SortMultiset<T>(le: (T, T) -> bool, s: seq<T>)
    ensures multiset(SortBy(le, s)) == multiset(s)
    ensures |SortBy(le, s)| == |s|
  {
    if s != [] {
      SortMultiset(le, s[1..]);
      InsertMultiset(le, s[0], SortBy(le, s[1..]));
      assert s == [s[0]] + s[1..];
    }
    assert |multiset(SortBy(le, s))| == |SortBy(le, s)|;
  }

  lemma {:induction false} InsertSorted<T(!new)>(le: (T, T) -> bool, x: T, s: seq<T>)
    requires TotalPreorder(le) && Sorted(le, s)
    ensures Sorted(le, Insert(le, x, s))
  {
    if s == [] || le(x, s[0]) {
    } else {
      var rest := Insert(le, x, s[1..]);
      InsertSorted(le, x, s[1..]);
      InsertMultiset(le, x, s[1..]);
      forall i | 0 <= i < |rest|
        ensures le(s[0], rest[i])
      {
        assert rest[i] in multiset(rest);
        assert rest[i] == x || rest[i] in s[1..];
      }
    }
  }

  lemma {:induction false} SortSorted<T(!new)>(le: (T, T) -> bool, s: seq<T>)
    requires TotalPreorder(le)
    ensures Sorted(le, SortBy(le, s))
  {
    if s != [] {
      SortSorted(le, s[1..]);
      InsertSorted(le, s[0], SortBy(le, s[1..]));
    }
  }

  lemma {:induction false} SortedHead<T>(le: (T, T) -> bool, a: seq<T>, b: seq<T>)
    requires multiset(a) == multiset(b) && a != [] && b != []
    requires Sorted(le, a) && Sorted(le, b)
    ensures a[0] == b[0] || (le(a[0], b[0]) && le(b[0], a[0]) && b[0] in a)
  {
    assert a[0] in multiset(b) && b[0] in multiset(a);
    var i :| 0 <= i < |b| && b[i] == a[0];
    var j :| 0 <= j < |a| && a[j] == b[0];
  }

  ghost predicate Separates<T>(le: (T, T) -> bool, s: multiset<T>) {
    forall x, y :: x in s && y in s && le(x, y) && le(y, x) ==> x == y
  }

  lemma {:induction false} SeparatesPart<T>(le: (T, T) -> bool, part: multiset<T>, all: multiset<T>)
    requires Separates(le, all) && part <= all
    ensures Separates(le, part)
  {
    forall x, y | x in part && y in part && le(x, y) && le(y, x)
      ensures x == y
    {
      assert x in all && y in all;
    }
  }

  lemma {:induction false} HeadsMatch<T>(le: (T, T) -> bool, a: seq<T>, b: seq<T>)
    requires multiset(a) == multiset(b) && a != [] && b != []
    requires Sorted(le, a) && Sorted(le, b) && Separates(le, multiset(a))
    ensures a[0] == b[0]
  {
    SortedHead(le, a, b);
  }

  // Two sorted arrangements of the same elements are the same arrangement,
  // provided the order separates the elements that occur.
  lemma {:induction false} SortedUnique<T>(le: (T, T) -> bool, a: seq<T>, b: seq<T>)
    requires multiset(a) == multiset(b)
    requires Sorted(le, a) && Sorted(le, b)
    requires Separates(le, multiset(a))
    ensures a == b
  {
    SameLength(a, b);
    if a != [] {
      HeadsMatch(le, a, b);
      TailsMatch(a, b);
      SeparatesPart(le, multiset(a[1..]), multiset(a));
      SortedTail(le, a);
      SortedTail(le, b);
      SortedUnique(le, a[1..], b[1..]);
      assert a == [a[0]] + a[1..] && b == [b[0]] + b[1..];
    }
  }

  lemma {:induction false} SameLength<T>(a: seq<T>, b: seq<T>)
    requires multiset(a) == multiset(b)
    ensures |a| == |b|
  {
    assert |multiset(a)| == |a| && |multiset(b)| == |b|;
  }

  lemma {:induction false} SortedTail<T>(le: (T, T) -> bool, s: seq<T>)
    requires Sorted(le, s) && s != []
    ensures Sorted(le, s[1..])
  {
  }

  lemma {:induction false} TailsMatch<T>(a: seq<T>, b: seq<T>)
    requires a != [] && b != [] && a[0] == b[0] && multiset(a) == multiset(b)
    ensures multiset(a[1..]) == multiset(b[1..])
    ensures multiset(a[1..]) <= multiset(a)
  {
    assert a == [a[0]] + a[1..] && b == [b[0]] + b[1..];
    assert multiset(a[1..]) == multiset(a) - multiset{a[0]};
    assert multiset(b[1..]) == multiset(b) - multiset{a[0]};
  }

  // The elements that compare equal to x, in the order in which they occur.
  function TiedWith<T>(le: (T, T) -> bool, x: T, s: seq<T>): seq<T> {
    if s == [] then []
    else (if le(x, s[0]) && le(s[0], x) then [s[0]] else []) + TiedWith(le, x, s[1..])
  }

  lemma {:induction false} InsertStable<T(!new)>(le: (T, T) -> bool, x: T, y: T, s: seq<T>)
    requires TotalPreorder(le)
    ensures TiedWith(le, x, Insert(le, y, s)) == TiedWith(le, x, [y] + s)
  {
    assert ([y] + s)[1..] == s;
    if s != [] && !le(y, s[0]) {
      InsertStable(le, x, y, s[1..]);
      assert ([y] + s[1..])[1..] == s[1..];
      assert Insert(le, y, s)[1..] == Insert(le, y, s[1..]);
    }
  }

  lemma {:induction false} SortStable<T(!new)>(le: (T, T) -> bool, x: T, s: seq<T>)
    requires TotalPreorder(le)
    ensures TiedWith(le, x, SortBy(le, s)) == TiedWith(le, x, s)
  {
    if s != [] {
      SortStable(le, x, s[1..]);
      InsertStable(le, x, s[0], SortBy(le, s[1..]));
      assert ([s[0]] + SortBy(le, s[1..]))[1..] == SortBy(le, s[1..]);
    }
  }

  lemma {:induction false} TiedMember<T>(le: (T, T) -> bool, x: T, y: T, s: seq<T>)
    ensures y in TiedWith(le, x, s) <==> y in s && le(x, y) && le(y, x)
  {
    if s != [] {
      TiedMember(le, x, y, s[1..]);
    }
  }

  ghost predicate SameTies<T(!new)>(le: (T, T) -> bool, a: seq<T>, b: seq<T>) {
    forall x :: TiedWith(le, x, a) == TiedWith(le, x, b)
  }

  // The first elements of two sorted lists with the same ties are the same.
  lemma {:induction false} SameTiesHead<T(!new)>(le: (T, T) -> bool, a: seq<T>, b: seq<T>)
    requires TotalPreorder(le) && Sorted(le, a) && Sorted(le, b) && SameTies(le, a, b) && a != []
    ensures b != [] && a[0] == b[0]
  {
    TiedMember(le, a[0], a[0], a);
    TiedMember(le, a[0], a[0], b);
    TiedMember(le, b[0], b[0], b);
    TiedMember(le, b[0], b[0], a);
    assert TiedWith(le, a[0], a)[0] == a[0];
    assert le(a[0], b[0]) && le(b[0], a[0]);
    assert TiedWith(le, a[0], b)[0] == b[0];
  }

  // Two sorted lists in which tied elements stand in the same order are equal.
  lemma {:induction false} SortedSameTies<T(!new)>(le: (T, T) -> bool, a: seq<T>, b: seq<T>)
    requires TotalPreorder(le) && Sorted(le, a) && Sorted(le, b) && SameTies(le, a, b)
    ensures a == b
  {
    if a == [] {
      if b != [] {
        SameTiesHead(le, b, a);
      }
    } else {
      SameTiesHead(le, a, b);
      forall x
        ensures TiedWith(le, x, a[1..]) == TiedWith(le, x, b[1..])
      {
        assert TiedWith(le, x, a) == TiedWith(le, x, b);
        var head := if le(x, a[0]) && le(a[0], x) then [a[0]] else [];
        assert (head + TiedWith(le, x, a[1..]))[|head|..] == TiedWith(le, x, a[1..]);
        assert (head + TiedWith(le, x, b[1..]))[|head|..] == TiedWith(le, x, b[1..]);
      }
      SortedSameTies(le, a[1..], b[1..]);
      assert a == [a[0]] + a[1..] && b == [b[0]] + b[1..];
    }
  }
}
