/** Stable sorting by a numeric key, as `sort_by_key` and `sort_by` do. */
module Sorting {

  function Insert<T>(key: T -> nat, x: T, xs: seq<T>): seq<T> {
    if xs == [] || key(x) <= key(xs[0]) then [x] + xs
    else [xs[0]] + Insert(key, x, xs[1..])
  }

  function Sort<T>(key: T -> nat, xs: seq<T>): seq<T> {
    if xs == [] then [] else Insert(key, xs[0], Sort(key, xs[1..]))
  }

  ghost predicate Sorted<T>(key: T -> nat, xs: seq<T>) {
    forall i, j :: 0 <= i < j < |xs| ==> key(xs[i]) <= key(xs[j])
  }

  ghost predicate DistinctKeys<T>(key: T -> nat, xs: seq<T>) {
    forall i, j :: 0 <= i < j < |xs| ==> key(xs[i]) != key(xs[j])
  }

  lemma {:induction false} InsertPermutes<T>(key: T -> nat, x: T, xs: seq<T>)
    ensures multiset(Insert(key, x, xs)) == multiset(xs) + multiset{x}
  {
    if !(xs == [] || key(x) <= key(xs[0])) {
      InsertPermutes(key, x, xs[1..]);
      assert xs == [xs[0]] + xs[1..];
    }
  }

  lemma {:induction false} InsertSorted<T>(key: T -> nat, x: T, xs: seq<T>)
    requires Sorted(key, xs)
    ensures Sorted(key, Insert(key, x, xs))
  {
    if !(xs == [] || key(x) <= key(xs[0])) {
      InsertSorted(key, x, xs[1..]);
      var r := Insert(key, x, xs[1..]);
      InsertPermutes(key, x, xs[1..]);
      forall j | 0 <= j < |r| ensures key(xs[0]) <= key(r[j]) {
        assert r[j] in multiset(r);
      }
    }
  }

  lemma {:induction false} SortCorrect<T>(key: T -> nat, xs: seq<T>)
    ensures Sorted(key, Sort(key, xs))
    ensures multiset(Sort(key, xs)) == multiset(xs)
  {
    if xs != [] {
      SortCorrect(key, xs[1..]);
      assert xs == [xs[0]] + xs[1..];
      InsertSorted(key, xs[0], Sort(key, xs[1..]));
      InsertPermutes(key, xs[0], Sort(key, xs[1..]));
    }
  }

  lemma SortMember<T>(key: T -> nat, xs: seq<T>, x: T)
    ensures x in Sort(key, xs) <==> x in xs
  {
    SortCorrect(key, xs);
    assert x in Sort(key, xs) <==> x in multiset(Sort(key, xs));
    assert x in xs <==> x in multiset(xs);
  }

  lemma {:induction false} KeyOccursOnce<T>(key: T -> nat, xs: seq<T>, x: T)
    requires DistinctKeys(key, xs)
    ensures multiset(xs)[x] <= 1
  {
    if xs != [] {
      assert xs == [xs[0]] + xs[1..];
      KeyOccursOnce(key, xs[1..], x);
      assert xs[0] !in xs[1..] by {
        forall k | 0 <= k < |xs[1..]| ensures xs[1..][k] != xs[0] { assert key(xs[k + 1]) != key(xs[0]); }
      }
      assert xs[0] !in multiset(xs[1..]);
    }
  }

  lemma OccursTwice<T>(xs: seq<T>, i: nat, j: nat)
    requires i < j < |xs| && xs[i] == xs[j]
    ensures multiset(xs)[xs[i]] >= 2
  {
    assert xs == xs[..j] + xs[j..];
    assert xs[i] == xs[..j][i] && xs[i] == xs[j..][0];
    assert xs[i] in multiset(xs[..j]) && xs[i] in multiset(xs[j..]);
  }

  lemma {:induction false} SortedHead<T>(key: T -> nat, r: seq<T>, s: seq<T>)
    requires Sorted(key, r) && Sorted(key, s) && DistinctKeys(key, r)
    requires multiset(r) == multiset(s) && r != []
    ensures s != [] && r[0] == s[0]
  {
    assert r[0] in multiset(s);
    assert s[0] in multiset(r);
    var i :| 0 <= i < |s| && s[i] == r[0];
    var j :| 0 <= j < |r| && r[j] == s[0];
  }

  lemma TailMultiset<T>(xs: seq<T>)
    requires xs != []
    ensures multiset(xs[1..]) == multiset(xs) - multiset{xs[0]}
  {
    assert xs == [xs[0]] + xs[1..];
  }

  /** There is only one way to list distinct keys in order. */
  lemma {:induction false} SortedUnique<T>(key: T -> nat, r: seq<T>, s: seq<T>)
    requires Sorted(key, r) && Sorted(key, s) && DistinctKeys(key, r) && DistinctKeys(key, s)
    requires multiset(r) == multiset(s)
    ensures r == s
  {
    if r == [] {
      assert |multiset(s)| == 0;
    } else {
      SortedHead(key, r, s);
      TailMultiset(r);
      TailMultiset(s);
      SortedUnique(key, r[1..], s[1..]);
    }
  }
}
