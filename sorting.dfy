/**
 * `Array.prototype.sort(compare)`: a stable sort driven by a comparator that answers
 * negative, zero or positive. The sort is modelled by a stable insertion sort; the lemmas
 * show that its result is the unique sorted, stable permutation of the input, so any
 * conforming stable sort yields the same sequence.
 */
module Sorting {

  /**
   * A comparator the sort can rely on: swapping the arguments flips the sign, and "not
   * greater" is transitive. Then "not greater" is a total preorder and "zero" an equivalence.
   */
  ghost predicate Consistent<T(!new)>(cmp: (T, T) -> int) {
    && (forall a, b :: cmp(a, b) < 0 <==> cmp(b, a) > 0)
    && (forall a, b, c :: cmp(a, b) <= 0 && cmp(b, c) <= 0 ==> cmp(a, c) <= 0)
  }

  /** Two comparators that treat the same pairs as equal. */
  ghost predicate SameTieRelation<T(!new)>(cmp1: (T, T) -> int, cmp2: (T, T) -> int) {
    forall a, b :: cmp1(a, b) == 0 <==> cmp2(a, b) == 0
  }

  ghost predicate Sorted<T>(cmp: (T, T) -> int, s: seq<T>) {
    forall i, j :: 0 <= i < j < |s| ==> cmp(s[i], s[j]) <= 0
  }

  /** The elements of `s` that compare equal to `e`, in their order in `s`. */
  ghost function Ties<T>(cmp: (T, T) -> int, s: seq<T>, e: T): seq<T> {
    if s == [] then [] else (if cmp(s[0], e) == 0 then [s[0]] else []) + Ties(cmp, s[1..], e)
  }

  /** `r` lists every class of equal elements in the same order as `s` does. */
  ghost predicate SameTies<T(!new)>(cmp: (T, T) -> int, r: seq<T>, s: seq<T>) {
    forall e :: Ties(cmp, r, e) == Ties(cmp, s, e)
  }

  /** Puts `x` in front of the first element it is not greater than. */
  function Insert<T>(cmp: (T, T) -> int, x: T, r: seq<T>): (t: seq<T>)
    ensures multiset(t) == multiset(r) + multiset{x}
  {
    if r == [] || cmp(x, r[0]) <= 0 then [x] + r
    else
      assert r == [r[0]] + r[1..];
      [r[0]] + Insert(cmp, x, r[1..])
  }

  /** `[...s].sort(cmp)` */
  function SortBy<T>(cmp: (T, T) -> int, s: seq<T>): (r: seq<T>)
    ensures multiset(r) == multiset(s)
  {
    if s == [] then []
    else
      assert s == [s[0]] + s[1..];
      Insert(cmp, s[0], SortBy(cmp, s[1..]))
  }

  lemma Reflexive<T(!new)>(cmp: (T, T) -> int, a: T)
    requires Consistent(cmp)
    ensures cmp(a, a) == 0
  {
  }

  lemma {:induction false} TiesAppend<T>(cmp: (T, T) -> int, a: seq<T>, b: seq<T>, e: T)
    ensures Ties(cmp, a + b, e) == Ties(cmp, a, e) + Ties(cmp, b, e)
  {
    if a == [] {
      assert a + b == b;
    } else {
      assert (a + b)[0] == a[0] && (a + b)[1..] == a[1..] + b;
      TiesAppend(cmp, a[1..], b, e);
    }
  }

  /** An element not greater than anything in a sorted sequence may go in front of it. */
  lemma PrependSorted<T(!new)>(cmp: (T, T) -> int, x: T, r: seq<T>)
    requires Sorted(cmp, r)
    requires forall y :: y in r ==> cmp(x, y) <= 0
    ensures Sorted(cmp, [x] + r)
  {
    var t := [x] + r;
    forall i, j | 0 <= i < j < |t| ensures cmp(t[i], t[j]) <= 0 {
      if i == 0 {
        assert t[j] == r[j - 1] && t[j] in r;
      } else {
        assert t[i] == r[i - 1] && t[j] == r[j - 1];
      }
    }
  }

  /** Inserting keeps the sequence sorted. */
  lemma {:induction false} InsertSorted<T(!new)>(cmp: (T, T) -> int, x: T, r: seq<T>)
    requires Consistent(cmp) && Sorted(cmp, r)
    ensures Sorted(cmp, Insert(cmp, x, r))
  {
    if r == [] || cmp(x, r[0]) <= 0 {
      forall y | y in r ensures cmp(x, y) <= 0 {
        var k :| 0 <= k < |r| && r[k] == y;
        if k > 0 { assert cmp(r[0], r[k]) <= 0; }
      }
      PrependSorted(cmp, x, r);
    } else {
      var t' := Insert(cmp, x, r[1..]);
      InsertSorted(cmp, x, r[1..]);
      SortedTail(cmp, r);
      forall y | y in t' ensures cmp(r[0], y) <= 0 {
        assert y in multiset(t');
        if y != x {
          assert y in r[1..];
          var k :| 0 <= k < |r[1..]| && r[1..][k] == y;
          assert y == r[k + 1];
        }
      }
      PrependSorted(cmp, r[0], t');
    }
  }

  /** The sort orders its result by the comparator. */
  lemma {:induction false} SortBySorted<T(!new)>(cmp: (T, T) -> int, s: seq<T>)
    requires Consistent(cmp)
    ensures Sorted(cmp, SortBy(cmp, s))
  {
    if s != [] {
      SortBySorted(cmp, s[1..]);
      InsertSorted(cmp, s[0], SortBy(cmp, s[1..]));
    }
  }

  /** Inserting `x` adds it in front of the elements equal to it: earlier-input elements first. */
  lemma {:induction false} InsertTies<T(!new)>(cmp: (T, T) -> int, x: T, r: seq<T>, e: T)
    requires Consistent(cmp)
    ensures Ties(cmp, Insert(cmp, x, r), e) == (if cmp(x, e) == 0 then [x] else []) + Ties(cmp, r, e)
  {
    if r == [] || cmp(x, r[0]) <= 0 {
      TiesAppend(cmp, [x], r, e);
    } else {
      InsertTies(cmp, x, r[1..], e);
      TiesAppend(cmp, [r[0]], Insert(cmp, x, r[1..]), e);
      TiesAppend(cmp, [r[0]], r[1..], e);
      assert [r[0]] + r[1..] == r;
    }
  }

  /** The sort is stable: equal elements keep their relative input order. */
  lemma {:induction false} SortByStable<T(!new)>(cmp: (T, T) -> int, s: seq<T>)
    requires Consistent(cmp)
    ensures SameTies(cmp, SortBy(cmp, s), s)
  {
    if s != [] {
      SortByStable(cmp, s[1..]);
      forall e ensures Ties(cmp, SortBy(cmp, s), e) == Ties(cmp, s, e) {
        InsertTies(cmp, s[0], SortBy(cmp, s[1..]), e);
      }
    }
  }

  lemma SortedTail<T>(cmp: (T, T) -> int, r: seq<T>)
    requires Sorted(cmp, r) && r != []
    ensures Sorted(cmp, r[1..])
  {
    forall i, j | 0 <= i < j < |r[1..]| ensures cmp(r[1..][i], r[1..][j]) <= 0 {
      assert r[1..][i] == r[i + 1] && r[1..][j] == r[j + 1];
    }
  }

  /** The first element of a sorted sequence is not greater than any of its elements. */
  lemma SortedHead<T(!new)>(cmp: (T, T) -> int, r: seq<T>, y: T)
    requires Consistent(cmp) && Sorted(cmp, r) && y in r
    ensures cmp(r[0], y) <= 0
  {
    var j :| 0 <= j < |r| && r[j] == y;
    Reflexive(cmp, y);
    if j > 0 { assert cmp(r[0], r[j]) <= 0; }
  }

  /** Two sorted, stable permutations of each other start with the same element. */
  lemma SortedStableHeads<T(!new)>(cmp: (T, T) -> int, r1: seq<T>, r2: seq<T>)
    requires Consistent(cmp)
    requires Sorted(cmp, r1) && Sorted(cmp, r2)
    requires multiset(r1) == multiset(r2) && r1 != []
    requires SameTies(cmp, r1, r2)
    ensures r2 != [] && r1[0] == r2[0]
  {
    assert |multiset(r2)| == |r1|;
    var a, b := r1[0], r2[0];
    assert b in multiset(r1) && a in multiset(r2);
    SortedHead(cmp, r1, b);
    SortedHead(cmp, r2, a);
    Reflexive(cmp, a);
    assert cmp(b, a) == 0;
    assert Ties(cmp, r1, a) == [a] + Ties(cmp, r1[1..], a);
    assert Ties(cmp, r2, a) == [b] + Ties(cmp, r2[1..], a);
    assert Ties(cmp, r1, a)[0] == a;
    assert Ties(cmp, r2, a)[0] == b;
  }

  /** Removing the same first element from two sequences with the same classes keeps them the same. */
  lemma SameTiesTail<T(!new)>(cmp: (T, T) -> int, r1: seq<T>, r2: seq<T>)
    requires r1 != [] && r2 != [] && r1[0] == r2[0]
    requires SameTies(cmp, r1, r2)
    ensures SameTies(cmp, r1[1..], r2[1..])
  {
    forall e ensures Ties(cmp, r1[1..], e) == Ties(cmp, r2[1..], e) {
      var h := if cmp(r1[0], e) == 0 then [r1[0]] else [];
      assert Ties(cmp, r1, e) == h + Ties(cmp, r1[1..], e);
      assert Ties(cmp, r2, e) == h + Ties(cmp, r2[1..], e);
      assert Ties(cmp, r1[1..], e) == Ties(cmp, r1, e)[|h|..];
      assert Ties(cmp, r2[1..], e) == Ties(cmp, r2, e)[|h|..];
    }
  }

  /** Dropping an equal first element keeps two sequences sorted, permutations of each other and with the same classes. */
  lemma SortedStableTails<T(!new)>(cmp: (T, T) -> int, r1: seq<T>, r2: seq<T>)
    requires Sorted(cmp, r1) && Sorted(cmp, r2)
    requires multiset(r1) == multiset(r2) && SameTies(cmp, r1, r2)
    requires r1 != [] && r2 != [] && r1[0] == r2[0]
    ensures Sorted(cmp, r1[1..]) && Sorted(cmp, r2[1..])
    ensures multiset(r1[1..]) == multiset(r2[1..])
    ensures SameTies(cmp, r1[1..], r2[1..])
  {
    var a := r1[0];
    assert r1 == [a] + r1[1..] && r2 == [a] + r2[1..];
    assert multiset(r1[1..]) == multiset(r1) - multiset{a};
    assert multiset(r2[1..]) == multiset(r2) - multiset{a};
    SortedTail(cmp, r1);
    SortedTail(cmp, r2);
    SameTiesTail(cmp, r1, r2);
  }

  /** A sorted, stable permutation is unique. */
  lemma {:induction false} SortedStableUnique<T(!new)>(cmp: (T, T) -> int, r1: seq<T>, r2: seq<T>)
    requires Consistent(cmp)
    requires Sorted(cmp, r1) && Sorted(cmp, r2)
    requires multiset(r1) == multiset(r2)
    requires SameTies(cmp, r1, r2)
    ensures r1 == r2
    decreases |r1|
  {
    if r1 == [] {
      assert |multiset(r2)| == 0;
    } else {
      SortedStableHeads(cmp, r1, r2);
      SortedStableTails(cmp, r1, r2);
      SortedStableUnique(cmp, r1[1..], r2[1..]);
      assert r1 == [r1[0]] + r1[1..] && r2 == [r2[0]] + r2[1..];
    }
  }

  /** The sort's result depends only on the elements and the order within each class of equal ones. */
  lemma SortByCanonical<T(!new)>(cmp: (T, T) -> int, s: seq<T>, t: seq<T>)
    requires Consistent(cmp)
    requires multiset(s) == multiset(t) && SameTies(cmp, s, t)
    ensures SortBy(cmp, s) == SortBy(cmp, t)
  {
    SortBySorted(cmp, s);
    SortBySorted(cmp, t);
    SortByStable(cmp, s);
    SortByStable(cmp, t);
    SortedStableUnique(cmp, SortBy(cmp, s), SortBy(cmp, t));
  }

  /** Sorting a sorted result again changes nothing. */
  lemma SortByIdempotent<T(!new)>(cmp: (T, T) -> int, s: seq<T>)
    requires Consistent(cmp)
    ensures SortBy(cmp, SortBy(cmp, s)) == SortBy(cmp, s)
  {
    SortByStable(cmp, s);
    SortByCanonical(cmp, SortBy(cmp, s), s);
  }

  lemma {:induction false} TiesSameRelation<T(!new)>(cmp1: (T, T) -> int, cmp2: (T, T) -> int, s: seq<T>, e: T)
    requires SameTieRelation(cmp1, cmp2)
    ensures Ties(cmp1, s, e) == Ties(cmp2, s, e)
  {
    if s != [] {
      TiesSameRelation(cmp1, cmp2, s[1..], e);
    }
  }

  /**
   * Sorting by `cmp1` after sorting by a comparator with the same equal pairs (for instance
   * the reverse of `cmp1`) gives what sorting by `cmp1` alone gives.
   */
  lemma SortByForgetsPriorSort<T(!new)>(cmp1: (T, T) -> int, cmp2: (T, T) -> int, s: seq<T>)
    requires Consistent(cmp1) && Consistent(cmp2)
    requires SameTieRelation(cmp1, cmp2)
    ensures SortBy(cmp1, SortBy(cmp2, s)) == SortBy(cmp1, s)
  {
    SortByStable(cmp2, s);
    forall e ensures Ties(cmp1, SortBy(cmp2, s), e) == Ties(cmp1, s, e) {
      TiesSameRelation(cmp1, cmp2, SortBy(cmp2, s), e);
      TiesSameRelation(cmp1, cmp2, s, e);
    }
    SortByCanonical(cmp1, SortBy(cmp2, s), s);
  }

  /** A comparator that finds every pair equal leaves the input as it is. */
  lemma {:induction false} SortByAllEqualIsIdentity<T(!new)>(cmp: (T, T) -> int, s: seq<T>)
    requires forall a, b :: cmp(a, b) == 0
    ensures SortBy(cmp, s) == s
  {
    if s != [] {
      SortByAllEqualIsIdentity(cmp, s[1..]);
      assert [s[0]] + s[1..] == s;
    }
  }
}
