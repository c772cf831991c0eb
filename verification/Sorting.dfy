// Sorting by a string-pair key, and the fact the planner rests on: elements with
// distinct keys have one sorted order, whatever order they are listed in.
module Sorting {
  import opened Text

  type Key = (string, string)

  predicate KeyLess(a: Key, b: Key) {
    Less(a.0, b.0) || (a.0 == b.0 && Less(a.1, b.1))
  }

  lemma KeyLessTransitive(a: Key, b: Key, c: Key)
    requires KeyLess(a, b) && KeyLess(b, c)
    ensures KeyLess(a, c)
  {
    if Less(a.0, b.0) && Less(b.0, c.0) {
      LessTransitive(a.0, b.0, c.0);
    }
    if Less(a.1, b.1) && Less(b.1, c.1) {
      LessTransitive(a.1, b.1, c.1);
    }
  }

  lemma KeyLessTotal(a: Key, b: Key)
    ensures !(KeyLess(a, b) && KeyLess(b, a))
    ensures KeyLess(a, b) || a == b || KeyLess(b, a)
    ensures !KeyLess(a, a)
  {
    LessTotal(a.0, b.0);
    LessTotal(a.1, b.1);
    LessTotal(a.0, a.0);
    LessTotal(a.1, a.1);
  }

  function StringKey(s: string): Key {
    (s, "")
  }

  function Elements<T>(xs: seq<T>): set<T> {
    set x | x in xs
  }

  /** Keys tell the elements of s apart. */
  ghost predicate DistinctKeys<T>(key: T -> Key, s: set<T>) {
    forall x, y | x in s && y in s && x != y :: key(x) != key(y)
  }

  ghost predicate Ascending<T>(key: T -> Key, xs: seq<T>) {
    forall i, j | 0 <= i < j < |xs| :: KeyLess(key(xs[i]), key(xs[j]))
  }

  predicate NoDuplicates<T(==)>(xs: seq<T>) {
    forall i, j | 0 <= i < j < |xs| :: xs[i] != xs[j]
  }

  // ---------- Insertion sort ----------

  function Insert<T>(key: T -> Key, x: T, xs: seq<T>): seq<T> {
    if xs == [] || KeyLess(key(x), key(xs[0])) then [x] + xs
    else [xs[0]] + Insert(key, x, xs[1..])
  }

  function SortBy<T>(key: T -> Key, xs: seq<T>): seq<T> {
    if xs == [] then [] else Insert(key, xs[0], SortBy(key, xs[1..]))
  }

  lemma ElementsCons<T>(x: T, xs: seq<T>)
    ensures Elements([x] + xs) == {x} + Elements(xs)
  {
    assert forall y :: y in [x] + xs <==> y == x || y in xs;
  }

  lemma ElementsSnoc<T>(xs: seq<T>, x: T)
    ensures Elements(xs + [x]) == Elements(xs) + {x}
  {
    assert forall y :: y in xs + [x] <==> y == x || y in xs;
  }

  lemma ElementsEmpty<T>(xs: seq<T>)
    ensures Elements(xs) == {} <==> xs == []
  {
    if xs != [] {
      assert xs[0] in Elements(xs);
    }
  }

  lemma {:induction false} InsertElements<T>(key: T -> Key, x: T, xs: seq<T>)
    ensures Elements(Insert(key, x, xs)) == Elements(xs) + {x}
  {
    if xs == [] || KeyLess(key(x), key(xs[0])) {
      ElementsCons(x, xs);
    } else {
      InsertElements(key, x, xs[1..]);
      ElementsCons(xs[0], Insert(key, x, xs[1..]));
      ElementsCons(xs[0], xs[1..]);
      assert xs == [xs[0]] + xs[1..];
    }
  }

  lemma {:induction false} SortByElements<T>(key: T -> Key, xs: seq<T>)
    ensures Elements(SortBy(key, xs)) == Elements(xs)
  {
    if xs != [] {
      SortByElements(key, xs[1..]);
      InsertElements(key, xs[0], SortBy(key, xs[1..]));
      ElementsCons(xs[0], xs[1..]);
      assert xs == [xs[0]] + xs[1..];
    }
  }

  lemma {:induction false} InsertAscending<T>(key: T -> Key, x: T, xs: seq<T>)
    requires Ascending(key, xs)
    requires forall y | y in xs :: key(y) != key(x)
    ensures Ascending(key, Insert(key, x, xs))
  {
    if xs == [] {
    } else if KeyLess(key(x), key(xs[0])) {
      forall j | 1 <= j < |xs| ensures KeyLess(key(x), key(xs[j])) {
        KeyLessTransitive(key(x), key(xs[0]), key(xs[j]));
      }
    } else {
      InsertAscending(key, x, xs[1..]);
      InsertElements(key, x, xs[1..]);
      var rest := Insert(key, x, xs[1..]);
      KeyLessTotal(key(x), key(xs[0]));
      forall j | 0 <= j < |rest| ensures KeyLess(key(xs[0]), key(rest[j])) {
        assert rest[j] in Elements(rest);
      }
    }
  }

  lemma {:induction false} SortByAscending<T>(key: T -> Key, xs: seq<T>)
    requires NoDuplicates(xs) && DistinctKeys(key, Elements(xs))
    ensures Ascending(key, SortBy(key, xs))
  {
    if xs != [] {
      forall y | y in Elements(xs[1..]) ensures y in Elements(xs) {}
      SortByAscending(key, xs[1..]);
      SortByElements(key, xs[1..]);
      forall y | y in SortBy(key, xs[1..]) ensures key(y) != key(xs[0]) {
        assert y in Elements(SortBy(key, xs[1..]));
      }
      InsertAscending(key, xs[0], SortBy(key, xs[1..]));
    }
  }

  // ---------- Uniqueness ----------

  /** Two ascending listings of the same elements are the same listing. */
  lemma {:induction false} AscendingUnique<T>(key: T -> Key, a: seq<T>, b: seq<T>)
    requires Ascending(key, a) && Ascending(key, b)
    requires Elements(a) == Elements(b)
    ensures a == b
  {
    if a == [] || b == [] {
      ElementsEmpty(a);
      ElementsEmpty(b);
    } else {
      FirstIsLeast(key, a, b);
      FirstIsLeast(key, b, a);
      KeyLessTotal(key(a[0]), key(b[0]));
      TailElements(key, a);
      TailElements(key, b);
      assert a[0] == b[0];
      AscendingUnique(key, a[1..], b[1..]);
    }
  }

  lemma FirstIsLeast<T>(key: T -> Key, a: seq<T>, b: seq<T>)
    requires Ascending(key, a) && a != [] && b != []
    requires Elements(a) == Elements(b)
    ensures b[0] == a[0] || KeyLess(key(a[0]), key(b[0]))
  {
    assert b[0] in Elements(b);
    var i :| 0 <= i < |a| && a[i] == b[0];
  }

  lemma TailElements<T>(key: T -> Key, a: seq<T>)
    requires Ascending(key, a) && a != []
    ensures Elements(a[1..]) == Elements(a) - {a[0]}
  {
    forall x | x in a[1..] ensures x != a[0] {
      var i :| 1 <= i < |a| && a[i] == x;
      KeyLessTotal(key(a[0]), key(x));
    }
    forall x | x in a && x != a[0] ensures x in a[1..] {
      var i :| 0 <= i < |a| && a[i] == x;
      assert a[1..][i - 1] == x;
    }
  }

  // ---------- The sorted listing of a set ----------

  ghost function Listing<T(!new)>(s: set<T>): (xs: seq<T>)
    ensures Elements(xs) == s && NoDuplicates(xs)
  {
    if s == {} then []
    else
      var x :| x in s;
      var rest := Listing(s - {x});
      assert forall y :: y in rest <==> y in Elements(rest);
      assert Elements([x] + rest) == s;
      [x] + rest
  }

  lemma SortedExists<T(!new)>(key: T -> Key, s: set<T>)
    requires DistinctKeys(key, s)
    ensures exists xs: seq<T> :: Ascending(key, xs) && Elements(xs) == s
  {
    SortByAscending(key, Listing(s));
    SortByElements(key, Listing(s));
    assert Ascending(key, SortBy(key, Listing(s))) && Elements(SortBy(key, Listing(s))) == s;
  }

  /** The elements of s in key order. */
  ghost function Sorted<T(!new)>(key: T -> Key, s: set<T>): (xs: seq<T>)
    requires DistinctKeys(key, s)
    ensures Ascending(key, xs) && Elements(xs) == s
    ensures forall x :: x in xs <==> x in s
  {
    SortedExists(key, s);
    var xs :| Ascending(key, xs) && Elements(xs) == s;
    assert forall x :: x in xs <==> x in Elements(xs);
    xs
  }

  /** Sorting any listing of a set gives the set's one sorted order. */
  lemma SortByIsSorted<T(!new)>(key: T -> Key, xs: seq<T>)
    requires NoDuplicates(xs) && DistinctKeys(key, Elements(xs))
    ensures SortBy(key, xs) == Sorted(key, Elements(xs))
  {
    SortByAscending(key, xs);
    SortByElements(key, xs);
    AscendingUnique(key, SortBy(key, xs), Sorted(key, Elements(xs)));
  }

  /** The set of the first n elements. */
  ghost function FirstN<T>(xs: seq<T>, n: nat): set<T>
    requires n <= |xs|
  {
    if n == 0 then {} else FirstN(xs, n - 1) + {xs[n - 1]}
  }

  lemma {:induction false} FirstNMembers<T>(xs: seq<T>, n: nat)
    requires n <= |xs|
    ensures FirstN(xs, n) == Elements(xs[..n])
  {
    if n > 0 {
      FirstNMembers(xs, n - 1);
      assert xs[..n] == xs[..n - 1] + [xs[n - 1]];
      ElementsSnoc(xs[..n - 1], xs[n - 1]);
    }
  }

  lemma FirstNAll<T>(xs: seq<T>)
    ensures FirstN(xs, |xs|) == Elements(xs)
  {
    FirstNMembers(xs, |xs|);
    assert xs[..|xs|] == xs;
  }

  lemma FirstNFresh<T>(xs: seq<T>, n: nat)
    requires n < |xs| && NoDuplicates(xs)
    ensures xs[n] !in FirstN(xs, n)
    ensures FirstN(xs, n) <= Elements(xs)
  {
    FirstNMembers(xs, n);
  }

  lemma AscendingNoDuplicates<T>(key: T -> Key, xs: seq<T>)
    requires Ascending(key, xs)
    ensures NoDuplicates(xs)
  {
    forall i, j | 0 <= i < j < |xs| ensures xs[i] != xs[j] {
      KeyLessTotal(key(xs[i]), key(xs[j]));
    }
  }

  lemma {:induction false} NoDuplicatesLength<T>(xs: seq<T>)
    requires NoDuplicates(xs)
    ensures |Elements(xs)| == |xs|
  {
    if xs != [] {
      NoDuplicatesLength(xs[1..]);
      assert Elements(xs) == Elements(xs[1..]) + {xs[0]};
    }
  }

  ghost function SortedStrings(s: set<string>): (xs: seq<string>)
    ensures Ascending(StringKey, xs) && Elements(xs) == s && NoDuplicates(xs) && |xs| == |s|
    ensures forall x :: x in xs <==> x in s
  {
    var xs := Sorted(StringKey, s);
    AscendingNoDuplicates(StringKey, xs);
    NoDuplicatesLength(xs);
    xs
  }

  /** Go's collect-then-sort over a map's keys: the iteration order is arbitrary, the result is not. */
  method SortSet<T(==,!new)>(key: T -> Key, keys: set<T>) returns (sorted: seq<T>)
    requires DistinctKeys(key, keys)
    ensures sorted == Sorted(key, keys)
  {
    var rest := keys;
    var listed: seq<T> := [];
    while rest != {}
      invariant rest <= keys && Elements(listed) == keys - rest && NoDuplicates(listed)
      decreases rest
    {
      var x :| x in rest;
      ElementsSnoc(listed, x);
      assert forall y :: y in listed ==> y in Elements(listed);
      listed := listed + [x];
      rest := rest - {x};
    }
    assert Elements(listed) == keys;
    SortByIsSorted(key, listed);
    sorted := SortBy(key, listed);
  }

  method SortStringSet(keys: set<string>) returns (sorted: seq<string>)
    ensures sorted == SortedStrings(keys)
  {
    sorted := SortSet(StringKey, keys);
  }
}
