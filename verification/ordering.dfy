/** Total orders, sortedness and a reference sort.

    Every sort in the demos (Python's `sorted`, Ruby's `Array#sort`, C++'s
    `std::sort`, Swift's `sorted()`) runs over a total order, and under a
    total order a sequence has exactly one sorted permutation
    (`SortedUnique`). So one reference sort, insertion sort, stands for all of
    them, whatever algorithm each library uses. */
module Ordering {
  import opened Seqs

  /** `le` is a total order: reflexive, antisymmetric, transitive, total. */
  ghost predicate TotalOrder<T(!new)>(le: (T, T) -> bool) {
    && (forall a :: le(a, a))
    && (forall a, b :: le(a, b) && le(b, a) ==> a == b)
    && (forall a, b, c :: le(a, b) && le(b, c) ==> le(a, c))
    && (forall a, b :: le(a, b) || le(b, a))
  }

  /** Every element is `le` every later one. */
  ghost predicate Sorted<T>(s: seq<T>, le: (T, T) -> bool) {
    forall i, j :: 0 <= i < j < |s| ==> le(s[i], s[j])
  }

  /** The converse order: `Flip(le)(a, b)` holds when `le(b, a)` does. Sorting
      by it is sorting in descending order (Swift's `sorted(by: >)`). */
  function Flip<T>(le: (T, T) -> bool): (T, T) -> bool {
    (a, b) => le(b, a)
  }

  /** `x` placed before the first element of sorted `s` that it is `le`. */
  function Insert<T(!new)>(x: T, s: seq<T>, le: (T, T) -> bool): (r: seq<T>)
    ensures multiset(r) == multiset(s) + multiset{x}
  {
    if |s| == 0 then [x]
    else if le(x, s[0]) then [x] + s
    else
      assert s == [s[0]] + s[1..];
      [s[0]] + Insert(x, s[1..], le)
  }

  /** Inserting into a sorted sequence keeps it sorted. */
  lemma {:induction false} InsertSorted<T(!new)>(x: T, s: seq<T>, le: (T, T) -> bool)
    requires TotalOrder(le) && Sorted(s, le)
    ensures Sorted(Insert(x, s, le), le)
  {
    if |s| == 0 {
    } else if le(x, s[0]) {
      assert forall j :: 0 <= j < |s| ==> le(x, s[j]);
    } else {
      var rest := Insert(x, s[1..], le);
      InsertSorted(x, s[1..], le);
      assert le(s[0], x);
      forall j | 0 <= j < |rest|
        ensures le(s[0], rest[j])
      {
        HeadBelowInserted(x, s, rest, j, le);
      }
      assert Insert(x, s, le) == [s[0]] + rest;
    }
  }

  lemma InsertKeepsOrder<T(!new)>(x: T, s: seq<T>, le: (T, T) -> bool)
    ensures TotalOrder(le) && Sorted(s, le) ==> Sorted(Insert(x, s, le), le)
  {
    if TotalOrder(le) && Sorted(s, le) {
      InsertSorted(x, s, le);
    }
  }

  /** Every element of `Insert(x, s[1..])` is `x` or a later element of
      `s`, so the head of sorted `s` is `le` all of them once it is `le`
      `x`. */
  lemma HeadBelowInserted<T(!new)>(x: T, s: seq<T>, rest: seq<T>, j: int, le: (T, T) -> bool)
    requires TotalOrder(le) && Sorted(s, le) && |s| > 0 && le(s[0], x)
    requires rest == Insert(x, s[1..], le) && 0 <= j < |rest|
    ensures le(s[0], rest[j])
  {
    assert rest[j] in multiset(rest);
    if rest[j] != x {
      assert rest[j] in multiset(s[1..]);
      var k :| 0 <= k < |s[1..]| && s[1..][k] == rest[j];
      assert s[k + 1] == rest[j];
    }
  }

  /** The elements of `s` in ascending `le` order. */
  function Sort<T(!new)>(s: seq<T>, le: (T, T) -> bool): (r: seq<T>)
    ensures multiset(r) == multiset(s)
    ensures TotalOrder(le) ==> Sorted(r, le)
  {
    if |s| == 0 then []
    else
      assert s == [s[0]] + s[1..];
      var rest := Sort(s[1..], le);
      InsertKeepsOrder(s[0], rest, le);
      Insert(s[0], rest, le)
  }

  /** Under a total order, two sorted sequences holding the same elements are
      equal: the sorted permutation is unique. */
  lemma {:induction false} SortedUnique<T(!new)>(a: seq<T>, b: seq<T>, le: (T, T) -> bool)
    requires TotalOrder(le)
    requires Sorted(a, le) && Sorted(b, le)
    requires multiset(a) == multiset(b)
    ensures a == b
  {
    if |a| == 0 {
      assert |multiset(b)| == 0;
    } else {
      SameLeast(a, b, le);
      SameRest(a, b);
      assert Sorted(a[1..], le) && Sorted(b[1..], le);
      SortedUnique(a[1..], b[1..], le);
      assert a == [a[0]] + a[1..] && b == [b[0]] + b[1..];
    }
  }

  /** Two sorted arrangements of the same non-empty multiset start alike. */
  lemma SameLeast<T(!new)>(a: seq<T>, b: seq<T>, le: (T, T) -> bool)
    requires TotalOrder(le)
    requires Sorted(a, le) && Sorted(b, le)
    requires multiset(a) == multiset(b) && |a| > 0
    ensures |b| > 0 && a[0] == b[0]
  {
    assert |b| == |multiset(b)| == |multiset(a)| == |a|;
    assert a[0] in multiset(b);
    var j :| 0 <= j < |b| && b[j] == a[0];
    assert le(b[0], a[0]);
    assert b[0] in multiset(a);
    var i :| 0 <= i < |a| && a[i] == b[0];
    assert le(a[0], b[0]);
  }

  /** Removing equal first elements keeps the multisets equal. */
  lemma SameRest<T>(a: seq<T>, b: seq<T>)
    requires multiset(a) == multiset(b) && |a| > 0 && |b| > 0 && a[0] == b[0]
    ensures multiset(a[1..]) == multiset(b[1..])
  {
    assert a == [a[0]] + a[1..];
    assert b == [b[0]] + b[1..];
    assert multiset(a) == multiset{a[0]} + multiset(a[1..]);
    assert multiset(b) == multiset{b[0]} + multiset(b[1..]);
    assert multiset(a[1..]) == multiset(a) - multiset{a[0]};
    assert multiset(b[1..]) == multiset(b) - multiset{b[0]};
  }

  /** `Sort` is the one sorted permutation: any sorted rearrangement of `s` is
      `Sort(s, le)`. */
  lemma SortIsCanonical<T(!new)>(s: seq<T>, t: seq<T>, le: (T, T) -> bool)
    requires TotalOrder(le)
    requires Sorted(t, le) && multiset(t) == multiset(s)
    ensures Sort(s, le) == t
  {
    SortedUnique(Sort(s, le), t, le);
  }

  /** Sorting forgets the original order: rearrangements of one another sort
      to the same sequence. */
  lemma SortPermutationInvariant<T(!new)>(s: seq<T>, t: seq<T>, le: (T, T) -> bool)
    requires TotalOrder(le)
    requires multiset(s) == multiset(t)
    ensures Sort(s, le) == Sort(t, le)
  {
    SortedUnique(Sort(s, le), Sort(t, le), le);
  }

  /** The converse of a total order is a total order. */
  lemma FlipTotal<T(!new)>(le: (T, T) -> bool)
    requires TotalOrder(le)
    ensures TotalOrder(Flip(le))
  {
  }

  /** Sorting descending is sorting ascending and reversing. */
  lemma SortDescendingIsReverse<T(!new)>(s: seq<T>, le: (T, T) -> bool)
    requires TotalOrder(le)
    ensures Sort(s, Flip(le)) == Reverse(Sort(s, le))
  {
    var up := Sort(s, le);
    FlipTotal(le);
    ReversePermutes(up);
    assert Sorted(Reverse(up), Flip(le)) by {
      forall i, j | 0 <= i < j < |up|
        ensures Flip(le)(Reverse(up)[i], Reverse(up)[j])
      {
        assert le(up[|up| - 1 - j], up[|up| - 1 - i]);
      }
    }
    SortIsCanonical(s, Reverse(up), Flip(le));
  }

  /** Code-point lexicographic order on strings, a proper prefix first: the
      comparison of Python's `str` and Ruby's `String#<=>`, and Swift's
      `String <` on ASCII strings. */
  predicate StrLe(a: string, b: string) {
    |a| == 0 || (|b| > 0 && (a[0] < b[0] || (a[0] == b[0] && StrLe(a[1..], b[1..]))))
  }

  lemma {:induction false} StrLeAntisymmetric(a: string, b: string)
    requires StrLe(a, b) && StrLe(b, a)
    ensures a == b
  {
    if |a| > 0 {
      StrLeAntisymmetric(a[1..], b[1..]);
      assert a == [a[0]] + a[1..] && b == [b[0]] + b[1..];
    }
  }

  lemma {:induction false} StrLeTransitive(a: string, b: string, c: string)
    requires StrLe(a, b) && StrLe(b, c)
    ensures StrLe(a, c)
  {
    if |a| > 0 && a[0] == b[0] && b[0] == c[0] {
      StrLeTransitive(a[1..], b[1..], c[1..]);
    }
  }

  lemma {:induction false} StrLeTotal(a: string, b: string)
    ensures StrLe(a, b) || StrLe(b, a)
  {
    if |a| > 0 && |b| > 0 && a[0] == b[0] {
      StrLeTotal(a[1..], b[1..]);
    }
  }

  lemma {:induction false} StrLeReflexive(a: string)
    ensures StrLe(a, a)
  {
    if |a| > 0 {
      StrLeReflexive(a[1..]);
    }
  }

  /** String comparison is a total order, so sorting strings has one answer. */
  lemma StrLeIsTotalOrder()
    ensures TotalOrder(StrLe)
  {
    forall a | true ensures StrLe(a, a) { StrLeReflexive(a); }
    forall a, b | StrLe(a, b) && StrLe(b, a) ensures a == b { StrLeAntisymmetric(a, b); }
    forall a, b, c | StrLe(a, b) && StrLe(b, c) ensures StrLe(a, c) { StrLeTransitive(a, b, c); }
    forall a, b | true ensures StrLe(a, b) || StrLe(b, a) { StrLeTotal(a, b); }
  }

  /** Code-point order on characters. */
  predicate CharLe(a: char, b: char) {
    a <= b
  }

  lemma CharLeIsTotalOrder()
    ensures TotalOrder(CharLe)
  {
  }
}
