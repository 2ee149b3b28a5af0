/**
 sort.SliceStable as a function of its comparison, and what callers rely on: it
 permutes, it orders, and it keeps the order of every selected subsequence.
 */
module Sorting {

  ghost predicate StrictWeakOrder<T(!new)>(less: (T, T) -> bool) {
    && (forall a, b :: less(a, b) ==> !less(b, a))
    && (forall a, b, c :: !less(a, b) && !less(b, c) ==> !less(a, c))
  }

  // No later element ranks ahead of an earlier one.
  ghost predicate Ordered<T>(less: (T, T) -> bool, s: seq<T>) {
    forall i, j | 0 <= i < j < |s| :: !less(s[j], s[i])
  }

  // x came first in the input, so it goes ahead of everything it ties with.
  function Insert<T>(less: (T, T) -> bool, x: T, s: seq<T>): (r: seq<T>) {
    if s == [] then [x]
    else if less(s[0], x) then [s[0]] + Insert(less, x, s[1..])
    else [x] + s
  }

  function StableSort<T>(less: (T, T) -> bool, s: seq<T>): (r: seq<T>) {
    if s == [] then [] else Insert(less, s[0], StableSort(less, s[1..]))
  }

  function Filter<T>(p: T -> bool, s: seq<T>): (r: seq<T>) {
    if s == [] then []
    else if p(s[0]) then [s[0]] + Filter(p, s[1..])
    else Filter(p, s[1..])
  }

  function Map<T, U>(f: T -> U, s: seq<T>): (r: seq<U>)
    ensures |r| == |s|
    ensures forall i | 0 <= i < |s| :: r[i] == f(s[i])
  {
    seq(|s|, i requires 0 <= i < |s| => f(s[i]))
  }

  lemma {:induction false} InsertPermutes<T(!new)>(less: (T, T) -> bool, x: T, s: seq<T>)
    ensures multiset(Insert(less, x, s)) == multiset(s) + multiset{x}
  {
    if s != [] {
      InsertPermutes(less, x, s[1..]);
      assert s == [s[0]] + s[1..];
    }
  }

  lemma {:induction false} SortPermutes<T(!new)>(less: (T, T) -> bool, s: seq<T>)
    ensures multiset(StableSort(less, s)) == multiset(s)
    ensures |StableSort(less, s)| == |s|
    ensures forall x {:trigger x in s} {:trigger x in StableSort(less, s)} :: x in StableSort(less, s) <==> x in s
  {
    if s != [] {
      SortPermutes(less, s[1..]);
      InsertPermutes(less, s[0], StableSort(less, s[1..]));
      assert s == [s[0]] + s[1..];
    }
    assert |multiset(StableSort(less, s))| == |multiset(s)|;
    forall x
      ensures x in StableSort(less, s) <==> x in s
    {
      assert x in StableSort(less, s) <==> x in multiset(StableSort(less, s));
    }
  }

  lemma {:induction false} InsertOrders<T(!new)>(less: (T, T) -> bool, x: T, s: seq<T>)
    requires StrictWeakOrder(less) && Ordered(less, s)
    ensures Ordered(less, Insert(less, x, s))
  {
    if s != [] && less(s[0], x) {
      InsertOrders(less, x, s[1..]);
      var rest := Insert(less, x, s[1..]);
      InsertPermutes(less, x, s[1..]);
      forall j | 0 <= j < |rest|
        ensures !less(rest[j], s[0])
      {
        assert rest[j] in multiset(rest);
        if rest[j] != x {
          assert rest[j] in s[1..];
        }
      }
    } else if s != [] {
      forall j | 0 <= j < |s|
        ensures !less(s[j], x)
      {
        assert j == 0 || !less(s[j], s[0]);
      }
    }
  }

  lemma {:induction false} SortOrders<T(!new)>(less: (T, T) -> bool, s: seq<T>)
    requires StrictWeakOrder(less)
    ensures Ordered(less, StableSort(less, s))
  {
    if s != [] {
      SortOrders(less, s[1..]);
      InsertOrders(less, s[0], StableSort(less, s[1..]));
    }
  }

  lemma {:induction false} FilterMembers<T(!new)>(p: T -> bool, s: seq<T>)
    ensures forall x :: x in Filter(p, s) <==> x in s && p(x)
  {
    if s != [] {
      FilterMembers(p, s[1..]);
    }
  }

  // Once one element does not rank ahead of x, no later one does.
  ghost predicate Divides<T>(less: (T, T) -> bool, x: T, s: seq<T>) {
    forall i, j | 0 <= i <= j < |s| && less(s[j], x) :: less(s[i], x)
  }

  lemma OrderedDivides<T(!new)>(less: (T, T) -> bool, x: T, s: seq<T>)
    requires StrictWeakOrder(less) && Ordered(less, s)
    ensures Divides(less, x, s)
  {
  }

  lemma NothingAhead<T>(less: (T, T) -> bool, x: T, s: seq<T>)
    requires forall i | 0 <= i < |s| :: !less(s[i], x)
    ensures Insert(less, x, s) == [x] + s
  {
  }

  lemma FilterCons<T>(p: T -> bool, x: T, s: seq<T>)
    ensures Filter(p, [x] + s) == if p(x) then [x] + Filter(p, s) else Filter(p, s)
  {
  }

  lemma InsertCons<T>(less: (T, T) -> bool, x: T, y: T, s: seq<T>)
    requires less(y, x)
    ensures Insert(less, x, [y] + s) == [y] + Insert(less, x, s)
  {
  }

  lemma {:induction false} FilterOfInsert<T(!new)>(less: (T, T) -> bool, p: T -> bool, x: T, s: seq<T>)
    requires Divides(less, x, s)
    ensures Filter(p, Insert(less, x, s)) == if p(x) then Insert(less, x, Filter(p, s)) else Filter(p, s)
  {
    if s == [] {
    } else if less(s[0], x) {
      var y, rest := s[0], s[1..];
      assert s == [y] + rest;
      FilterOfInsert(less, p, x, rest);
      InsertCons(less, x, y, rest);
      FilterCons(p, y, Insert(less, x, rest));
      FilterCons(p, y, rest);
      InsertCons(less, x, y, Filter(p, rest));
    } else {
      FilterCons(p, x, s);
      FilterMembers(p, s);
      forall i | 0 <= i < |Filter(p, s)|
        ensures !less(Filter(p, s)[i], x)
      {
        assert Filter(p, s)[i] in s;
      }
      NothingAhead(less, x, Filter(p, s));
    }
  }

  // Sorting a selection gives the selection of the sorted list: this is stability.
  lemma {:induction false} FilterOfSort<T(!new)>(less: (T, T) -> bool, p: T -> bool, s: seq<T>)
    requires StrictWeakOrder(less)
    ensures Filter(p, StableSort(less, s)) == StableSort(less, Filter(p, s))
  {
    if s != [] {
      FilterOfSort(less, p, s[1..]);
      SortOrders(less, s[1..]);
      OrderedDivides(less, s[0], StableSort(less, s[1..]));
      FilterOfInsert(less, p, s[0], StableSort(less, s[1..]));
      if p(s[0]) {
        var kept := Filter(p, s[1..]);
        var all := [s[0]] + kept;
        assert all[0] == s[0] && all[1..] == kept;
        assert Filter(p, s) == all;
        assert StableSort(less, all) == Insert(less, s[0], StableSort(less, kept));
      } else {
        assert Filter(p, s) == Filter(p, s[1..]);
      }
    }
  }

  lemma {:induction false} MapOfInsert<T(!new), U(!new)>(
    less: (T, T) -> bool, image: (U, U) -> bool, f: T -> U, x: T, s: seq<T>)
    requires forall y | y in s :: image(f(y), f(x)) == less(y, x)
    ensures Map(f, Insert(less, x, s)) == Insert(image, f(x), Map(f, s))
  {
    if s != [] {
      assert s[0] in s;
      MapOfInsert(less, image, f, x, s[1..]);
      assert Map(f, s)[1..] == Map(f, s[1..]);
    }
  }

  // A map that keeps the comparison commutes with sorting.
  lemma {:induction false} MapOfSort<T(!new), U(!new)>(
    less: (T, T) -> bool, image: (U, U) -> bool, f: T -> U, s: seq<T>)
    requires forall x, y | x in s && y in s :: image(f(x), f(y)) == less(x, y)
    ensures Map(f, StableSort(less, s)) == StableSort(image, Map(f, s))
  {
    if s != [] {
      assert forall x | x in s[1..] :: x in s;
      MapOfSort(less, image, f, s[1..]);
      SortPermutes(less, s[1..]);
      assert s[0] in s;
      forall y | y in StableSort(less, s[1..])
        ensures image(f(y), f(s[0])) == less(y, s[0])
      {
        assert y in StableSort(less, s[1..]) <==> y in s[1..];
        assert y in s[1..];
      }
      MapOfInsert(less, image, f, s[0], StableSort(less, s[1..]));
      assert Map(f, s)[1..] == Map(f, s[1..]);
    }
  }

  // The first hit of a list is the first hit of every selection that keeps it.
  lemma {:induction false} FirstInFilter<T(!new)>(p: T -> bool, q: T -> bool, s: seq<T>, k: nat) returns (i: nat)
    requires k < |s| && p(s[k]) && q(s[k]) && forall j | 0 <= j < k :: !p(s[j])
    ensures i < |Filter(q, s)| && Filter(q, s)[i] == s[k]
    ensures forall j | 0 <= j < i :: !p(Filter(q, s)[j])
  {
    if k == 0 {
      i := 0;
    } else {
      i := FirstInFilter(p, q, s[1..], k - 1);
      if q(s[0]) {
        i := i + 1;
      }
    }
  }

  lemma {:induction false} FilterOfAll<T(!new)>(p: T -> bool, s: seq<T>)
    requires forall x | x in s :: p(x)
    ensures Filter(p, s) == s
  {
    if s != [] {
      assert forall x | x in s[1..] :: x in s;
      FilterOfAll(p, s[1..]);
    }
  }

  lemma {:induction false} FilterOfNone<T(!new)>(p: T -> bool, s: seq<T>)
    requires forall x | x in s :: !p(x)
    ensures Filter(p, s) == []
  {
    if s != [] {
      assert forall x | x in s[1..] :: x in s;
      FilterOfNone(p, s[1..]);
    }
  }

  lemma {:induction false} FilterOfJoin<T(!new)>(p: T -> bool, a: seq<T>, b: seq<T>)
    ensures Filter(p, a + b) == Filter(p, a) + Filter(p, b)
  {
    if a == [] {
      assert a + b == b;
    } else {
      FilterOfJoin(p, a[1..], b);
      assert (a + b)[1..] == a[1..] + b;
    }
  }

  // ---- stability ----

  // Whatever stood in a given order still does, unless the sort set it apart.
  ghost predicate KeepsTies<T>(less: (T, T) -> bool, earlier: (T, T) -> bool, s: seq<T>) {
    forall i, j | 0 <= i < j < |s| && !less(s[i], s[j]) :: earlier(s[i], s[j])
  }

  lemma {:induction false} InsertKeepsTies<T(!new)>(less: (T, T) -> bool, earlier: (T, T) -> bool, x: T, s: seq<T>)
    requires KeepsTies(less, earlier, s) && forall y | y in s :: earlier(x, y)
    ensures KeepsTies(less, earlier, Insert(less, x, s))
  {
    if s != [] && less(s[0], x) {
      var rest := Insert(less, x, s[1..]);
      InsertKeepsTies(less, earlier, x, s[1..]);
      InsertPermutes(less, x, s[1..]);
      forall j | 0 <= j < |rest| && !less(s[0], rest[j])
        ensures earlier(s[0], rest[j])
      {
        assert rest[j] in multiset(rest);
      }
    }
  }

  lemma {:induction false} SortIsStable<T(!new)>(less: (T, T) -> bool, earlier: (T, T) -> bool, s: seq<T>)
    requires forall i, j | 0 <= i < j < |s| :: earlier(s[i], s[j])
    ensures KeepsTies(less, earlier, StableSort(less, s))
  {
    if s != [] {
      SortIsStable(less, earlier, s[1..]);
      SortPermutes(less, s[1..]);
      forall y | y in StableSort(less, s[1..])
        ensures earlier(s[0], y)
      {
        assert y in s[1..];
      }
      InsertKeepsTies(less, earlier, s[0], StableSort(less, s[1..]));
    }
  }
}
