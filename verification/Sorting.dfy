/** Sorting by a comparator.  std::sort is any sort: the results below hold for every sorted permutation. */
module Sorting {

  function Insert<T>(less: (T, T) -> bool, x: T, s: seq<T>): seq<T> {
    if s == [] || less(x, s[0]) then [x] + s else [s[0]] + Insert(less, x, s[1..])
  }

  function Sort<T>(less: (T, T) -> bool, s: seq<T>): seq<T> {
    if s == [] then [] else Insert(less, s[0], Sort(less, s[1..]))
  }

  /** What a comparator must satisfy on the elements of s: the requirement of std::sort. */
  ghost predicate StrictWeakOn<T(!new)>(less: (T, T) -> bool, s: seq<T>) {
    && (forall x | x in s :: !less(x, x))
    && (forall x, y, z | x in s && y in s && z in s :: less(x, y) && less(y, z) ==> less(x, z))
    && (forall x, y, z | x in s && y in s && z in s :: less(x, z) ==> less(x, y) || less(y, z))
  }

  /** A strict weak order that tells different elements apart. */
  ghost predicate StrictTotalOn<T(!new)>(less: (T, T) -> bool, s: seq<T>) {
    && (forall x | x in s :: !less(x, x))
    && (forall x, y | x in s && y in s :: x != y ==> less(x, y) || less(y, x))
    && (forall x, y, z | x in s && y in s && z in s :: less(x, y) && less(y, z) ==> less(x, z))
  }

  /** No later element belongs before an earlier one. */
  ghost predicate Sorted<T(!new)>(less: (T, T) -> bool, s: seq<T>) {
    forall i, j | 0 <= i < j < |s| :: !less(s[j], s[i])
  }

  ghost predicate Distinct<T(!new)>(s: seq<T>) {
    forall i, j | 0 <= i < j < |s| :: s[i] != s[j]
  }

  lemma MultisetStep<T>(s: seq<T>)
    requires s != []
    ensures multiset(s) == multiset{s[0]} + multiset(s[1..])
  {
    assert s == [s[0]] + s[1..];
  }

  lemma SameElements<T>(a: seq<T>, b: seq<T>)
    requires multiset(a) == multiset(b)
    ensures |a| == |b|
    ensures forall x :: x in a <==> x in b
  {
    assert |multiset(a)| == |multiset(b)|;
    forall x
      ensures x in a <==> x in b
    {
      assert x in multiset(a) <==> x in multiset(b);
    }
  }

  lemma {:induction false} InsertPermutes<T>(less: (T, T) -> bool, x: T, s: seq<T>)
    ensures multiset(Insert(less, x, s)) == multiset{x} + multiset(s)
  {
    if s != [] && !less(x, s[0]) {
      InsertPermutes(less, x, s[1..]);
      MultisetStep(s);
    }
  }

  lemma {:induction false} SortPermutes<T>(less: (T, T) -> bool, s: seq<T>)
    ensures multiset(Sort(less, s)) == multiset(s)
    ensures |Sort(less, s)| == |s|
    ensures forall x :: x in Sort(less, s) <==> x in s
  {
    if s != [] {
      SortPermutes(less, s[1..]);
      InsertPermutes(less, s[0], Sort(less, s[1..]));
      MultisetStep(s);
    }
    SameElements(Sort(less, s), s);
  }

  lemma {:induction false} InsertSorts<T(!new)>(less: (T, T) -> bool, x: T, s: seq<T>)
    requires StrictWeakOn(less, [x] + s) && Sorted(less, s)
    ensures Sorted(less, Insert(less, x, s))
  {
    if s == [] {
    } else if less(x, s[0]) {
      var r := Insert(less, x, s);
      forall j | 0 < j < |r|
        ensures !less(r[j], r[0])
      {
        assert r[j] == s[j - 1] && s[j - 1] in [x] + s && s[0] in [x] + s && x in [x] + s;
      }
    } else {
      forall y | y in [x] + s[1..]
        ensures y in [x] + s
      {
      }
      InsertSorts(less, x, s[1..]);
      InsertPermutes(less, x, s[1..]);
      var t := Insert(less, x, s[1..]);
      forall j | 0 <= j < |t|
        ensures !less(t[j], s[0])
      {
        assert t[j] in multiset(t);
        if t[j] != x {
          assert t[j] in s[1..];
        }
      }
    }
  }

  lemma WeakOnFewer<T(!new)>(less: (T, T) -> bool, s: seq<T>, t: seq<T>)
    requires StrictWeakOn(less, s) && forall x | x in t :: x in s
    ensures StrictWeakOn(less, t)
  {
  }

  /** Sorting sorts whenever the comparator is a strict weak order on the elements. */
  lemma {:induction false} SortSorts<T(!new)>(less: (T, T) -> bool, s: seq<T>)
    requires StrictWeakOn(less, s)
    ensures Sorted(less, Sort(less, s))
  {
    if s != [] {
      SortPermutes(less, s[1..]);
      WeakOnFewer(less, s, s[1..]);
      WeakOnFewer(less, s, [s[0]] + Sort(less, s[1..]));
      hide StrictWeakOn, Sorted;
      SortSorts(less, s[1..]);
      InsertSorts(less, s[0], Sort(less, s[1..]));
    }
  }

  lemma TotalIsWeak<T(!new)>(less: (T, T) -> bool, s: seq<T>)
    requires StrictTotalOn(less, s)
    ensures StrictWeakOn(less, s)
  {
    forall x, y, z | x in s && y in s && z in s && less(x, z)
      ensures less(x, y) || less(y, z)
    {
      if x != y && !less(x, y) {
        assert less(y, x);
      }
    }
  }

  lemma HeadsAgree<T(!new)>(less: (T, T) -> bool, a: seq<T>, b: seq<T>)
    requires StrictTotalOn(less, a) && Sorted(less, a) && Sorted(less, b)
    requires a != [] && multiset(a) == multiset(b)
    ensures b != [] && a[0] == b[0]
  {
    SameElements(a, b);
    assert b[0] in b && a[0] in a;
    assert b[0] in a && a[0] in b;
    var i :| 0 <= i < |a| && a[i] == b[0];
    var j :| 0 <= j < |b| && b[j] == a[0];
    assert !less(a[i], a[0]) || i == 0;
    assert !less(b[j], b[0]) || j == 0;
  }

  lemma TailsAgree<T>(a: seq<T>, b: seq<T>)
    requires a != [] && b != [] && a[0] == b[0] && multiset(a) == multiset(b)
    ensures multiset(a[1..]) == multiset(b[1..])
  {
    MultisetStep(a);
    MultisetStep(b);
    assert multiset(a[1..]) == multiset(a) - multiset{a[0]};
  }

  /** Under a strict total order there is only one sorted permutation, so the sorting algorithm does not matter. */
  lemma {:induction false} SortedUnique<T(!new)>(less: (T, T) -> bool, a: seq<T>, b: seq<T>)
    requires StrictTotalOn(less, a) && Sorted(less, a) && Sorted(less, b)
    requires multiset(a) == multiset(b)
    ensures a == b
  {
    if a == [] {
      SameElements(a, b);
    } else {
      HeadsAgree(less, a, b);
      TailsAgree(a, b);
      assert StrictTotalOn(less, a[1..]);
      assert Sorted(less, a[1..]) && Sorted(less, b[1..]);
      hide StrictTotalOn, Sorted;
      SortedUnique(less, a[1..], b[1..]);
      assert a == [a[0]] + a[1..] && b == [b[0]] + b[1..];
    }
  }

  lemma RemoveMatching<T>(a: seq<T>, b: seq<T>, j: nat)
    requires a != [] && j < |b| && a[0] == b[j] && multiset(a) == multiset(b)
    ensures multiset(a[1..]) == multiset(b[..j] + b[j + 1..])
  {
    MultisetStep(a);
    assert b == b[..j] + [b[j]] + b[j + 1..];
    assert multiset(b) == multiset(b[..j] + b[j + 1..]) + multiset{b[j]};
    assert multiset(a[1..]) == multiset(a) - multiset{a[0]};
  }
}
