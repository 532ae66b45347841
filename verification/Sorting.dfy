/** Python's `sorted(xs, key=...)`: a stable sort, as insertion from the right. */
module Sorting {

  ghost predicate OrderedBy<T(!new)>(s: seq<T>, key: T -> nat) {
    forall i, j :: 0 <= i < j < |s| ==> key(s[i]) <= key(s[j])
  }

  ghost predicate DistinctKeys<T(!new)>(s: seq<T>, key: T -> nat) {
    forall i, j :: 0 <= i < j < |s| ==> key(s[i]) != key(s[j])
  }

  function Insert<T(!new)>(s: seq<T>, e: T, key: T -> nat): seq<T> {
    if s == [] || key(s[|s| - 1]) <= key(e) then s + [e]
    else Insert(s[..|s| - 1], e, key) + [s[|s| - 1]]
  }

  function SortBy<T(!new)>(s: seq<T>, key: T -> nat): seq<T> {
    if s == [] then [] else Insert(SortBy(s[..|s| - 1], key), s[|s| - 1], key)
  }

  lemma SplitLast<T(!new)>(s: seq<T>)
    requires s != []
    ensures s == s[..|s| - 1] + [s[|s| - 1]]
    ensures multiset(s) == multiset(s[..|s| - 1]) + multiset{s[|s| - 1]}
  {
    assert s == s[..|s| - 1] + [s[|s| - 1]];
  }

  lemma {:induction false} InsertPermutes<T(!new)>(s: seq<T>, e: T, key: T -> nat)
    ensures multiset(Insert(s, e, key)) == multiset(s) + multiset{e}
  {
    if s != [] && key(s[|s| - 1]) > key(e) {
      InsertPermutes(s[..|s| - 1], e, key);
      SplitLast(s);
    }
  }

  lemma InsertMembers<T(!new)>(s: seq<T>, e: T, key: T -> nat, x: T)
    ensures x in Insert(s, e, key) <==> x in s || x == e
  {
    InsertPermutes(s, e, key);
    assert x in Insert(s, e, key) <==> x in multiset(Insert(s, e, key));
    assert x in s <==> x in multiset(s);
  }

  lemma {:induction false} InsertOrders<T(!new)>(s: seq<T>, e: T, key: T -> nat)
    requires OrderedBy(s, key)
    ensures OrderedBy(Insert(s, e, key), key)
  {
    if s != [] && key(s[|s| - 1]) > key(e) {
      var front, last := s[..|s| - 1], s[|s| - 1];
      InsertOrders(front, e, key);
      var r := Insert(front, e, key);
      forall i | 0 <= i < |r| ensures key(r[i]) <= key(last) {
        InsertMembers(front, e, key, r[i]);
      }
    }
  }

  /** Sorting gives a permutation in key order. */
  lemma {:induction false} SortSorts<T(!new)>(s: seq<T>, key: T -> nat)
    ensures multiset(SortBy(s, key)) == multiset(s)
    ensures |SortBy(s, key)| == |s|
    ensures OrderedBy(SortBy(s, key), key)
  {
    if s != [] {
      SortSorts(s[..|s| - 1], key);
      InsertOrders(SortBy(s[..|s| - 1], key), s[|s| - 1], key);
      InsertPermutes(SortBy(s[..|s| - 1], key), s[|s| - 1], key);
      SplitLast(s);
    }
    assert |multiset(SortBy(s, key))| == |multiset(s)|;
  }

  lemma SortMembers<T(!new)>(s: seq<T>, key: T -> nat, x: T)
    ensures x in SortBy(s, key) <==> x in s
  {
    SortSorts(s, key);
    assert x in s <==> x in multiset(s);
    assert x in SortBy(s, key) <==> x in multiset(SortBy(s, key));
  }

  /** A list already in key order is left alone. */
  lemma {:induction false} SortOfOrdered<T(!new)>(s: seq<T>, key: T -> nat)
    requires OrderedBy(s, key)
    ensures SortBy(s, key) == s
  {
    if s != [] {
      SortOfOrdered(s[..|s| - 1], key);
      SplitLast(s);
    }
  }

  lemma SameFirst<T(!new)>(s: seq<T>, t: seq<T>, key: T -> nat)
    requires multiset(s) == multiset(t) && s != [] && t != []
    requires OrderedBy(s, key) && OrderedBy(t, key) && DistinctKeys(s, key)
    ensures s[0] == t[0]
  {
    assert s[0] in multiset(t) && t[0] in multiset(s);
    var i :| 0 <= i < |s| && s[i] == t[0];
    var j :| 0 <= j < |t| && t[j] == s[0];
    assert key(s[0]) <= key(s[i]) && key(t[0]) <= key(t[j]);
  }

  lemma DropFirst<T(!new)>(s: seq<T>)
    requires s != []
    ensures s == [s[0]] + s[1..]
    ensures multiset(s[1..]) == multiset(s) - multiset{s[0]}
  {
    assert s == [s[0]] + s[1..];
  }

  lemma RestOrdered<T(!new)>(s: seq<T>, key: T -> nat)
    requires s != []
    ensures OrderedBy(s, key) ==> OrderedBy(s[1..], key)
    ensures DistinctKeys(s, key) ==> DistinctKeys(s[1..], key)
  {
  }

  lemma {:induction false} OrderedUnique<T(!new)>(s: seq<T>, t: seq<T>, key: T -> nat)
    requires multiset(s) == multiset(t)
    requires OrderedBy(s, key) && OrderedBy(t, key) && DistinctKeys(s, key)
    ensures s == t
  {
    assert |multiset(s)| == |multiset(t)|;
    if s != [] {
      SameFirst(s, t, key);
      DropFirst(s);
      DropFirst(t);
      RestOrdered(s, key);
      RestOrdered(t, key);
      OrderedUnique(s[1..], t[1..], key);
    }
  }

  lemma {:induction false} InsertKeepsDistinct<T(!new)>(s: seq<T>, e: T, key: T -> nat)
    requires DistinctKeys(s, key) && forall x :: x in s ==> key(x) != key(e)
    ensures DistinctKeys(Insert(s, e, key), key)
  {
    if s != [] && key(s[|s| - 1]) > key(e) {
      var front, last := s[..|s| - 1], s[|s| - 1];
      InsertKeepsDistinct(front, e, key);
      var r := Insert(front, e, key);
      forall i | 0 <= i < |r| ensures key(r[i]) != key(last) {
        InsertMembers(front, e, key, r[i]);
      }
    }
  }

  lemma {:induction false} SortKeepsDistinct<T(!new)>(s: seq<T>, key: T -> nat)
    requires DistinctKeys(s, key)
    ensures DistinctKeys(SortBy(s, key), key)
  {
    if s != [] {
      var front := s[..|s| - 1];
      SortKeepsDistinct(front, key);
      forall x | x in SortBy(front, key) ensures key(x) != key(s[|s| - 1]) {
        SortMembers(front, key, x);
      }
      InsertKeepsDistinct(SortBy(front, key), s[|s| - 1], key);
    }
  }

  /** With distinct keys the sorted list does not depend on the order of the input. */
  lemma SortIgnoresOrder<T(!new)>(s: seq<T>, t: seq<T>, key: T -> nat)
    requires multiset(s) == multiset(t) && DistinctKeys(s, key)
    ensures SortBy(s, key) == SortBy(t, key)
  {
    SortSorts(s, key);
    SortSorts(t, key);
    SortKeepsDistinct(s, key);
    OrderedUnique(SortBy(s, key), SortBy(t, key), key);
  }
}
