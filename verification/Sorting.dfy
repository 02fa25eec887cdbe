/** Python's stable sort with a key, as a function of the strict order on the keys. */
module Sorting {

  /** A strict weak order: what a comparison of keys always is. */
  ghost predicate StrictWeak<T(!new)>(less: (T, T) -> bool) {
    && (forall a, b :: less(a, b) ==> !less(b, a))
    && (forall a, b, c :: !less(a, b) && !less(b, c) ==> !less(a, c))
  }

  function Insert<T>(less: (T, T) -> bool, x: T, s: seq<T>): seq<T> {
    if s == [] || !less(s[0], x) then [x] + s else [s[0]] + Insert(less, x, s[1..])
  }

  function SortBy<T>(less: (T, T) -> bool, s: seq<T>): seq<T> {
    if s == [] then [] else Insert(less, s[0], SortBy(less, s[1..]))
  }

  ghost predicate SortedBy<T>(less: (T, T) -> bool, s: seq<T>) {
    forall i, j :: 0 <= i < j < |s| ==> !less(s[j], s[i])
  }

  lemma {:induction false} InsertPermutes<T>(less: (T, T) -> bool, x: T, s: seq<T>)
    ensures multiset(Insert(less, x, s)) == multiset(s) + multiset{x}
  {
    if s != [] && less(s[0], x) {
      InsertPermutes(less, x, s[1..]);
      assert s == [s[0]] + s[1..];
    }
  }

  lemma {:induction false} InsertSorts<T(!new)>(less: (T, T) -> bool, x: T, s: seq<T>)
    requires StrictWeak(less) && SortedBy(less, s)
    ensures SortedBy(less, Insert(less, x, s))
    ensures forall y :: y in Insert(less, x, s) ==> y == x || y in s
  {
    if s != [] && less(s[0], x) {
      InsertSorts(less, x, s[1..]);
      var t := Insert(less, x, s[1..]);
      forall y | y in t ensures !less(y, s[0]) {
        if y != x {
          var k :| 0 <= k < |s[1..]| && s[1..][k] == y;
          assert s[k + 1] == y;
        }
      }
      assert forall j :: 0 <= j < |t| ==> t[j] in t;
    } else if s != [] {
      forall j | 0 <= j < |s| ensures !less(s[j], x) {
        assert !less(s[j], s[0]);
      }
    }
  }

  lemma {:induction false} SortByPermutes<T>(less: (T, T) -> bool, s: seq<T>)
    ensures multiset(SortBy(less, s)) == multiset(s)
  {
    if s != [] {
      SortByPermutes(less, s[1..]);
      InsertPermutes(less, s[0], SortBy(less, s[1..]));
      assert s == [s[0]] + s[1..];
    }
  }

  lemma {:induction false} SortBySorts<T(!new)>(less: (T, T) -> bool, s: seq<T>)
    requires StrictWeak(less)
    ensures SortedBy(less, SortBy(less, s))
  {
    if s != [] {
      SortBySorts(less, s[1..]);
      InsertSorts(less, s[0], SortBy(less, s[1..]));
    }
  }

  /** The result is a sorted permutation of the input. */
  lemma SortBySpec<T(!new)>(less: (T, T) -> bool, s: seq<T>)
    ensures multiset(SortBy(less, s)) == multiset(s)
    ensures |SortBy(less, s)| == |s|
    ensures forall x :: x in SortBy(less, s) <==> x in s
    ensures StrictWeak(less) ==> SortedBy(less, SortBy(less, s))
  {
    SortByPermutes(less, s);
    SameElements(SortBy(less, s), s);
    if StrictWeak(less) {
      SortBySorts(less, s);
    }
  }

  lemma SameElements<T>(a: seq<T>, b: seq<T>)
    requires multiset(a) == multiset(b)
    ensures |a| == |b|
    ensures forall x :: x in a <==> x in b
  {
    assert |multiset(a)| == |a| && |multiset(b)| == |b|;
    forall x ensures x in a <==> x in b {
      assert x in a <==> x in multiset(a);
      assert x in b <==> x in multiset(b);
    }
  }

  lemma CountsTwice<T>(s: seq<T>, i: nat, j: nat)
    requires i < j < |s| && s[i] == s[j]
    ensures multiset(s)[s[i]] >= 2
  {
    assert s == s[..i] + [s[i]] + s[i + 1..j] + [s[j]] + s[j + 1..];
  }

  /** The sort leaves an already sorted list alone; with `SortBySpec`, sorting is idempotent. */
  lemma {:induction false} SortByFixed<T(!new)>(less: (T, T) -> bool, s: seq<T>)
    requires SortedBy(less, s)
    ensures SortBy(less, s) == s
  {
    if s != [] {
      SortByFixed(less, s[1..]);
      assert s == [s[0]] + s[1..];
    }
  }

  ghost predicate Ascending<T>(less: (T, T) -> bool, s: seq<T>) {
    forall i, j :: 0 <= i < j < |s| ==> less(s[i], s[j])
  }

  lemma HeadFirst<T>(less: (T, T) -> bool, s: seq<T>, x: T)
    requires Ascending(less, s) && x in s
    ensures x == s[0] || less(s[0], x)
  {
    var i :| 0 <= i < |s| && s[i] == x;
    assert i > 0 ==> less(s[0], s[i]);
  }

  lemma TailMultiset<T>(s: seq<T>)
    requires s != []
    ensures multiset(s[1..]) == multiset(s) - multiset{s[0]}
  {
    assert s == [s[0]] + s[1..];
  }

  lemma HeadsAgree<T(!new)>(less: (T, T) -> bool, a: seq<T>, b: seq<T>)
    requires multiset(a) == multiset(b) && a != []
    requires Ascending(less, a) && Ascending(less, b)
    requires forall x, y :: less(x, y) ==> !less(y, x)
    ensures b != [] && a[0] == b[0]
  {
    SameElements(a, b);
    assert a[0] in a && |b| > 0;
    assert b[0] in b;
    HeadFirst(less, a, b[0]);
    HeadFirst(less, b, a[0]);
  }

  /** With pairwise ordered keys the sorted arrangement is unique. */
  lemma {:induction false} SortedUnique<T(!new)>(less: (T, T) -> bool, a: seq<T>, b: seq<T>)
    requires multiset(a) == multiset(b)
    requires Ascending(less, a) && Ascending(less, b)
    requires forall x, y :: less(x, y) ==> !less(y, x)
    ensures a == b
  {
    if a != [] {
      HeadsAgree(less, a, b);
      TailMultiset(a);
      TailMultiset(b);
      SortedUnique(less, a[1..], b[1..]);
      assert a == [a[0]] + a[1..] && b == [b[0]] + b[1..];
    } else {
      SameElements(a, b);
    }
  }
}
