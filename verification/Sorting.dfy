/** Stable sorting by a text key, as Python's `sorted` does. */
module Sorting {
  import opened Strings

  function Insert<T>(x: T, xs: seq<T>, key: T -> string): seq<T> {
    if xs == [] || !TextLess(key(xs[0]), key(x)) then [x] + xs else [xs[0]] + Insert(x, xs[1..], key)
  }

  function Sorted<T>(xs: seq<T>, key: T -> string): seq<T> {
    if xs == [] then [] else Insert(xs[0], Sorted(xs[1..], key), key)
  }

  predicate Ascending<T>(xs: seq<T>, key: T -> string) {
    forall i, j :: 0 <= i < j < |xs| ==> !TextLess(key(xs[j]), key(xs[i]))
  }

  lemma {:induction false} InsertKeeps<T>(x: T, xs: seq<T>, key: T -> string)
    requires Ascending(xs, key)
    ensures Ascending(Insert(x, xs, key), key)
    ensures multiset(Insert(x, xs, key)) == multiset([x]) + multiset(xs)
    decreases |xs|
  {
    if xs != [] {
      assert xs == [xs[0]] + xs[1..];
      if TextLess(key(xs[0]), key(x)) {
        var rest := Insert(x, xs[1..], key);
        InsertKeeps(x, xs[1..], key);
        TextLessAsymmetric(key(xs[0]), key(x));
        hide Insert;
        forall y | y in rest
          ensures !TextLess(key(y), key(xs[0]))
        {
          assert y in multiset(rest);
          assert y == x || y in xs[1..];
        }
        Prepended(xs[0], rest, key);
      } else {
        hide Insert;
        forall y | y in xs
          ensures !TextLess(key(y), key(x))
        {
          if y != xs[0] {
            TextLessTransitive(key(x), key(xs[0]), key(y));
          }
        }
        Prepended(x, xs, key);
      }
    }
  }

  lemma {:induction false} Prepended<T>(x: T, xs: seq<T>, key: T -> string)
    requires Ascending(xs, key) && forall y :: y in xs ==> !TextLess(key(y), key(x))
    ensures Ascending([x] + xs, key)
  {
  }

  /** The same items, in ascending order of their keys. */
  lemma {:induction false} SortedIs<T>(xs: seq<T>, key: T -> string)
    ensures Ascending(Sorted(xs, key), key)
    ensures multiset(Sorted(xs, key)) == multiset(xs)
    decreases |xs|
  {
    if xs != [] {
      SortedIs(xs[1..], key);
      InsertKeeps(xs[0], Sorted(xs[1..], key), key);
      assert xs == [xs[0]] + xs[1..];
    }
  }

  lemma {:induction false} SortedHolds<T>(xs: seq<T>, key: T -> string)
    ensures forall x :: x in Sorted(xs, key) <==> x in xs
  {
    SortedIs(xs, key);
    forall x
      ensures x in Sorted(xs, key) <==> x in xs
    {
      assert x in Sorted(xs, key) <==> x in multiset(Sorted(xs, key));
    }
  }

  // ---- stability ----------------------------------------------------------

  /** The items with one key, in order. */
  function WithKey<T>(xs: seq<T>, key: T -> string, k: string): seq<T> {
    if xs == [] then [] else (if key(xs[0]) == k then [xs[0]] else []) + WithKey(xs[1..], key, k)
  }

  lemma {:induction false} InsertStable<T>(x: T, xs: seq<T>, key: T -> string, k: string)
    ensures WithKey(Insert(x, xs, key), key, k) == WithKey([x] + xs, key, k)
    decreases |xs|
  {
    assert ([x] + xs)[1..] == xs;
    if xs != [] && TextLess(key(xs[0]), key(x)) {
      var rest := Insert(x, xs[1..], key);
      InsertStable(x, xs[1..], key, k);
      assert ([xs[0]] + rest)[1..] == rest && ([x] + xs[1..])[1..] == xs[1..];
      TextLessSame(key(x));
    }
  }

  /** Items with equal keys keep their order. */
  lemma {:induction false} SortedIsStable<T>(xs: seq<T>, key: T -> string, k: string)
    ensures WithKey(Sorted(xs, key), key, k) == WithKey(xs, key, k)
    decreases |xs|
  {
    if xs != [] {
      var rest := Sorted(xs[1..], key);
      SortedIsStable(xs[1..], key, k);
      InsertStable(xs[0], rest, key, k);
      assert ([xs[0]] + rest)[1..] == rest;
    }
  }
}
