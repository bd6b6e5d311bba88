/**
 Orders and sorting as the daemon uses them: strings and records compared field by field,
 sorted with the library sort. Sorting is what turns a list into a canonical form, so the
 facts proved here are that equal sorted forms mean equal multisets, and conversely.
 */
module Ordering {

  /** Enough to sort by: different values may be equal in the order. */
  ghost predicate TotalPreorder<T(!new)>(leq: (T, T) -> bool) {
    && (forall x, y :: leq(x, y) || leq(y, x))
    && (forall x, y, z :: leq(x, y) && leq(y, z) ==> leq(x, z))
  }

  ghost predicate TotalOrder<T(!new)>(leq: (T, T) -> bool) {
    TotalPreorder(leq) && forall x, y :: leq(x, y) && leq(y, x) ==> x == y
  }

  predicate SortedBy<T>(leq: (T, T) -> bool, s: seq<T>) {
    forall i, j :: 0 <= i < j < |s| ==> leq(s[i], s[j])
  }

  function Insert<T>(leq: (T, T) -> bool, x: T, s: seq<T>): (r: seq<T>)
    ensures multiset(r) == multiset{x} + multiset(s)
  {
    if s == [] then [x]
    else if leq(x, s[0]) then [x] + s
    else
      assert s == [s[0]] + s[1..];
      [s[0]] + Insert(leq, x, s[1..])
  }

  /** Insertion sort: what any correct sort returns when the order is total. */
  function Sort<T>(leq: (T, T) -> bool, s: seq<T>): (r: seq<T>)
    ensures multiset(r) == multiset(s)
  {
    if s == [] then []
    else
      assert s == [s[0]] + s[1..];
      Insert(leq, s[0], Sort(leq, s[1..]))
  }

  lemma SameElements<T>(a: seq<T>, b: seq<T>)
    requires multiset(a) == multiset(b)
    ensures |a| == |b|
    ensures forall x :: x in a <==> x in b
  {
    assert |a| == |multiset(a)| && |b| == |multiset(b)|;
    forall x
      ensures x in a <==> x in b
    {
      assert x in a <==> x in multiset(a);
      assert x in b <==> x in multiset(b);
    }
  }

  lemma {:induction false} InsertSorted<T(!new)>(leq: (T, T) -> bool, x: T, s: seq<T>)
    requires TotalPreorder(leq) && SortedBy(leq, s)
    ensures SortedBy(leq, Insert(leq, x, s))
  {
    if s != [] && !leq(x, s[0]) {
      var rest := Insert(leq, x, s[1..]);
      InsertSorted(leq, x, s[1..]);
      forall j | 0 <= j < |rest|
        ensures leq(s[0], rest[j])
      {
        assert rest[j] in multiset(rest);
        assert rest[j] == x || rest[j] in s[1..];
      }
    }
  }

  lemma {:induction false} SortSorted<T(!new)>(leq: (T, T) -> bool, s: seq<T>)
    requires TotalPreorder(leq)
    ensures SortedBy(leq, Sort(leq, s))
  {
    if s != [] {
      SortSorted(leq, s[1..]);
      InsertSorted(leq, s[0], Sort(leq, s[1..]));
    }
  }

  lemma RestOf<T>(s: seq<T>)
    requires s != []
    ensures s == [s[0]] + s[1..] && multiset(s[1..]) == multiset(s) - multiset{s[0]}
  {
  }

  /** A sorted list is determined by its elements. */
  lemma {:induction false} SortedUnique<T(!new)>(leq: (T, T) -> bool, a: seq<T>, b: seq<T>)
    requires TotalOrder(leq)
    requires SortedBy(leq, a) && SortedBy(leq, b) && multiset(a) == multiset(b)
    ensures a == b
  {
    SameElements(a, b);
    if a != [] {
      assert a[0] == b[0] by { assert a[0] in b && b[0] in a; }
      RestOf(a);
      RestOf(b);
      SortedUnique(leq, a[1..], b[1..]);
    }
  }

  /** Two lists have the same sorted form exactly when they are permutations of each other. */
  lemma SortCanonical<T(!new)>(leq: (T, T) -> bool, a: seq<T>, b: seq<T>)
    requires TotalOrder(leq)
    ensures Sort(leq, a) == Sort(leq, b) <==> multiset(a) == multiset(b)
  {
    SortSorted(leq, a);
    SortSorted(leq, b);
    if multiset(a) == multiset(b) {
      SortedUnique(leq, Sort(leq, a), Sort(leq, b));
    }
  }

  // ---- lexicographic order ----

  predicate LexLeq<T(==)>(leq: (T, T) -> bool, a: seq<T>, b: seq<T>) {
    a == [] || (b != [] && (if a[0] == b[0] then LexLeq(leq, a[1..], b[1..]) else leq(a[0], b[0])))
  }

  lemma {:induction false} LexTotal<T(!new)>(leq: (T, T) -> bool, a: seq<T>, b: seq<T>)
    requires TotalOrder(leq)
    ensures LexLeq(leq, a, b) || LexLeq(leq, b, a)
  {
    if a != [] && b != [] && a[0] == b[0] {
      LexTotal(leq, a[1..], b[1..]);
    }
  }

  lemma {:induction false} LexAntisymmetric<T(!new)>(leq: (T, T) -> bool, a: seq<T>, b: seq<T>)
    requires TotalOrder(leq) && LexLeq(leq, a, b) && LexLeq(leq, b, a)
    ensures a == b
  {
    if a != [] {
      assert b != [] && a[0] == b[0];
      LexAntisymmetric(leq, a[1..], b[1..]);
      assert a == [a[0]] + a[1..] && b == [b[0]] + b[1..];
    }
  }

  lemma {:induction false} LexTransitive<T(!new)>(leq: (T, T) -> bool, a: seq<T>, b: seq<T>, c: seq<T>)
    requires TotalOrder(leq) && LexLeq(leq, a, b) && LexLeq(leq, b, c)
    ensures LexLeq(leq, a, c)
  {
    if a != [] && a[0] == b[0] && b[0] == c[0] {
      LexTransitive(leq, a[1..], b[1..], c[1..]);
    }
  }

  predicate CharLeq(a: char, b: char) {
    a <= b
  }

  predicate StringLeq(a: string, b: string) {
    LexLeq(CharLeq, a, b)
  }

  predicate StringsLeq(a: seq<string>, b: seq<string>) {
    LexLeq(StringLeq, a, b)
  }

  lemma StringOrder()
    ensures TotalOrder(StringLeq)
  {
    assert TotalOrder(CharLeq);
    forall a, b, c
      ensures StringLeq(a, b) || StringLeq(b, a)
      ensures StringLeq(a, b) && StringLeq(b, a) ==> a == b
      ensures StringLeq(a, b) && StringLeq(b, c) ==> StringLeq(a, c)
    {
      LexTotal(CharLeq, a, b);
      if StringLeq(a, b) && StringLeq(b, a) {
        LexAntisymmetric(CharLeq, a, b);
      }
      if StringLeq(a, b) && StringLeq(b, c) {
        LexTransitive(CharLeq, a, b, c);
      }
    }
  }

  lemma StringsOrder()
    ensures TotalOrder(StringsLeq)
  {
    StringOrder();
    forall a, b, c
      ensures StringsLeq(a, b) || StringsLeq(b, a)
      ensures StringsLeq(a, b) && StringsLeq(b, a) ==> a == b
      ensures StringsLeq(a, b) && StringsLeq(b, c) ==> StringsLeq(a, c)
    {
      LexTotal(StringLeq, a, b);
      if StringsLeq(a, b) && StringsLeq(b, a) {
        LexAntisymmetric(StringLeq, a, b);
      }
      if StringsLeq(a, b) && StringsLeq(b, c) {
        LexTransitive(StringLeq, a, b, c);
      }
    }
  }

  // ---- sequences without repeats ----

  predicate Distinct<T(==)>(s: seq<T>) {
    forall i, j :: 0 <= i < j < |s| ==> s[i] != s[j]
  }

  lemma DistinctPermutation<T>(a: seq<T>, b: seq<T>)
    requires Distinct(a) && multiset(a) == multiset(b)
    ensures Distinct(b)
  {
    forall i, j | 0 <= i < j < |b|
      ensures b[i] != b[j]
    {
      RepeatCounts(b, i, j);
      DistinctCounts(a, b[i]);
    }
  }

  lemma RepeatCounts<T>(s: seq<T>, i: nat, j: nat)
    requires i < j < |s|
    ensures s[i] == s[j] ==> multiset(s)[s[i]] >= 2
  {
    assert s == s[..j] + [s[j]] + s[j + 1..];
    assert s[..j][i] == s[i] && s[i] in multiset(s[..j]);
  }

  lemma {:induction false} DistinctCounts<T>(s: seq<T>, x: T)
    requires Distinct(s)
    ensures multiset(s)[x] <= 1
  {
    if s != [] {
      assert s == [s[0]] + s[1..];
      DistinctCounts(s[1..], x);
      assert forall k :: 0 <= k < |s[1..]| ==> s[1..][k] == s[k + 1] && s[k + 1] != s[0];
      assert s[0] !in multiset(s[1..]);
    }
  }

  lemma SameDistinct<T>(a: seq<T>, b: seq<T>)
    requires Distinct(a) && Distinct(b) && forall x :: x in a <==> x in b
    ensures multiset(a) == multiset(b)
  {
    forall x: T | x in multiset(a) || x in multiset(b)
      ensures multiset(a)[x] == multiset(b)[x]
    {
      DistinctCounts(a, x);
      DistinctCounts(b, x);
      assert x in a <==> x in multiset(a);
      assert x in b <==> x in multiset(b);
    }
  }

  /** The keys of a map, sorted, as the loops over sorted keys go through them. */
  method SortedKeys(keys: set<string>) returns (sorted: seq<string>)
    ensures Distinct(sorted) && SortedBy(StringLeq, sorted) && forall k :: k in sorted <==> k in keys
  {
    var listed: seq<string>, todo := [], keys;
    while todo != {}
      invariant todo <= keys && Distinct(listed)
      invariant forall k :: k in listed <==> k in keys && k !in todo
      decreases |todo|
    {
      var k :| k in todo;
      todo, listed := todo - {k}, listed + [k];
    }
    StringOrder();
    SortSorted(StringLeq, listed);
    DistinctPermutation(listed, Sort(StringLeq, listed));
    SameElements(listed, Sort(StringLeq, listed));
    return Sort(StringLeq, listed);
  }
}
