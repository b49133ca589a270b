/** The ordering used to iterate over a batch of observations.

    Python's `sorted` is a stable sort driven only by the elements' `<`.
    Here `less` stands for that comparison and `Sort` is a stable insertion
    sort: it returns a permutation of its input, the result is sorted when
    `less` is a strict order, and when `less` is a strict total order the
    sorted permutation is unique, so any correct sort (Python's included)
    produces exactly `Sort`'s sequence. */
module Ordering {

  /** `less` is irreflexive and transitive. */
  ghost predicate StrictOrder<T(!new)>(less: (T, T) -> bool)
  {
    && (forall a :: !less(a, a))
    && (forall a, b, c :: less(a, b) && less(b, c) ==> less(a, c))
  }

  /** A strict order in which any two distinct elements are comparable. */
  ghost predicate StrictTotalOrder<T(!new)>(less: (T, T) -> bool)
  {
    && StrictOrder(less)
    && (forall a, b :: a != b ==> less(a, b) || less(b, a))
  }

  /** No element is strictly smaller than an element placed before it. */
  predicate Sorted<T>(less: (T, T) -> bool, s: seq<T>)
  {
    forall i, j :: 0 <= i < j < |s| ==> !less(s[j], s[i])
  }

  /** `f` applied to every element, in order. */
  function Project<T, U>(f: T -> U, s: seq<T>): (r: seq<U>)
    ensures |r| == |s|
    ensures forall i :: 0 <= i < |s| ==> r[i] == f(s[i])
  {
    if |s| == 0 then [] else [f(s[0])] + Project(f, s[1..])
  }

  /** Places `x` just before the first element strictly greater than it, so
      that `x` lands after every element it is equal to (stability). */
  function Insert<T>(less: (T, T) -> bool, x: T, s: seq<T>): (r: seq<T>)
    ensures |r| == |s| + 1
    ensures multiset(r) == multiset(s) + multiset{x}
  {
    if |s| == 0 then [x]
    else if less(x, s[0]) then [x] + s
    else
      assert s == [s[0]] + s[1..];
      [s[0]] + Insert(less, x, s[1..])
  }

  /** Insertion sort: each element in input order is inserted into the sorted
      prefix before it. */
  function Sort<T>(less: (T, T) -> bool, s: seq<T>): (r: seq<T>)
    ensures |r| == |s|
    ensures multiset(r) == multiset(s)
  {
    if |s| == 0 then []
    else
      assert s == s[..|s| - 1] + [s[|s| - 1]];
      Insert(less, s[|s| - 1], Sort(less, s[..|s| - 1]))
  }

  lemma {:induction false} InsertSorted<T(!new)>(less: (T, T) -> bool, x: T, s: seq<T>)
    requires StrictOrder(less)
    requires Sorted(less, s)
    ensures Sorted(less, Insert(less, x, s))
  {
    if |s| == 0 {
    } else if less(x, s[0]) {
      var r := [x] + s;
      assert forall m :: 0 <= m < |s| ==> !less(s[m], s[0]);
      forall i, j | 0 <= i < j < |r|
        ensures !less(r[j], r[i])
      {
        if i > 0 {
          assert r[i] == s[i - 1] && r[j] == s[j - 1];
        }
      }
    } else {
      var tail := Insert(less, x, s[1..]);
      InsertSorted(less, x, s[1..]);
      var r := [s[0]] + tail;
      forall i, j | 0 <= i < j < |r|
        ensures !less(r[j], r[i])
      {
        if i == 0 {
          assert r[j] in multiset(tail);
          assert r[j] in multiset(s[1..]) || r[j] == x;
          if r[j] != x {
            var k :| 0 <= k < |s[1..]| && s[1..][k] == r[j];
            assert s[k + 1] == r[j];
          }
        } else {
          assert r[i] == tail[i - 1] && r[j] == tail[j - 1];
        }
      }
    }
  }

  /** `Sort` returns a sorted sequence whenever `less` is a strict order. */
  lemma {:induction false} SortSorted<T(!new)>(less: (T, T) -> bool, s: seq<T>)
    requires StrictOrder(less)
    ensures Sorted(less, Sort(less, s))
  {
    if |s| > 0 {
      SortSorted(less, s[..|s| - 1]);
      InsertSorted(less, s[|s| - 1], Sort(less, s[..|s| - 1]));
    }
  }

  /** Under a strict total order two sorted permutations of the same elements
      are the same sequence. */
  lemma {:induction false} SortedUnique<T(!new)>(less: (T, T) -> bool, a: seq<T>, b: seq<T>)
    requires StrictTotalOrder(less)
    requires Sorted(less, a) && Sorted(less, b)
    requires multiset(a) == multiset(b)
    ensures a == b
  {
    if |a| == 0 {
      assert |multiset(b)| == 0;
    } else {
      assert |b| == |multiset(b)| == |multiset(a)| == |a|;
      assert a[0] == b[0] by {
        assert a[0] in multiset(b);
        var k :| 0 <= k < |b| && b[k] == a[0];
        assert b[0] in multiset(a);
        var m :| 0 <= m < |a| && a[m] == b[0];
        assert !less(a[0], b[0]) && !less(b[0], a[0]);
      }
      assert a == [a[0]] + a[1..];
      assert b == [b[0]] + b[1..];
      assert multiset(a) == multiset{a[0]} + multiset(a[1..]);
      assert multiset(b) == multiset{b[0]} + multiset(b[1..]);
      assert multiset(a[1..]) == multiset(a) - multiset{a[0]};
      assert multiset(b[1..]) == multiset(b) - multiset{b[0]};
      SortedUnique(less, a[1..], b[1..]);
    }
  }

  /** Any sorted permutation of `s` under a strict total order is `Sort(s)`. */
  lemma SortIsTheSortedPermutation<T(!new)>(less: (T, T) -> bool, s: seq<T>, r: seq<T>)
    requires StrictTotalOrder(less)
    requires Sorted(less, r) && multiset(r) == multiset(s)
    ensures r == Sort(less, s)
  {
    SortSorted(less, s);
    SortedUnique(less, r, Sort(less, s));
  }

  lemma {:induction false} ProjectConcat<T, U>(f: T -> U, a: seq<T>, b: seq<T>)
    ensures Project(f, a + b) == Project(f, a) + Project(f, b)
  {
    if |a| > 0 {
      assert (a + b)[1..] == a[1..] + b;
      ProjectConcat(f, a[1..], b);
    }
  }

  /** Removing the element at `k` from `b` leaves a permutation of `a`'s tail
      when `b[k]` is `a`'s head. */
  lemma {:induction false} RemoveMatchingHead<T>(a: seq<T>, b: seq<T>, k: int)
    requires multiset(a) == multiset(b)
    requires |a| > 0 && 0 <= k < |b| && b[k] == a[0]
    ensures multiset(a[1..]) == multiset(b[..k] + b[k + 1..])
  {
    assert b == b[..k] + [b[k]] + b[k + 1..];
    assert a == [a[0]] + a[1..];
    assert multiset(a) == multiset{a[0]} + multiset(a[1..]);
    assert multiset(b) == multiset(b[..k]) + multiset{b[k]} + multiset(b[k + 1..]);
    assert multiset(a[1..]) == multiset(a) - multiset{a[0]};
    assert multiset(b[..k] + b[k + 1..]) == multiset(b) - multiset{b[k]};
  }

  /** Projecting `b` with its element at `k` taken out and put in front. */
  lemma {:induction false} ProjectMoveToFront<T, U>(f: T -> U, b: seq<T>, k: int)
    requires 0 <= k < |b|
    ensures multiset(Project(f, b)) == multiset{f(b[k])} + multiset(Project(f, b[..k] + b[k + 1..]))
  {
    var front, back := b[..k], b[k + 1..];
    var p, q := Project(f, front), Project(f, back);
    assert Project(f, b) == p + [f(b[k])] + q by {
      assert b == front + [b[k]] + back;
      ProjectConcat(f, front + [b[k]], back);
      ProjectConcat(f, front, [b[k]]);
    }
    ProjectConcat(f, front, back);
    MultisetMiddle(p, f(b[k]), q);
  }

  lemma {:induction false} MultisetMiddle<U>(p: seq<U>, x: U, q: seq<U>)
    ensures multiset(p + [x] + q) == multiset{x} + multiset(p + q)
  {
    assert multiset(p + [x] + q) == multiset(p + [x]) + multiset(q);
    assert multiset(p + [x]) == multiset(p) + multiset{x};
    assert multiset(p + q) == multiset(p) + multiset(q);
  }

  /** Projecting two permutations of each other yields permutations of each
      other. */
  lemma {:induction false} ProjectPermutation<T, U>(f: T -> U, a: seq<T>, b: seq<T>)
    requires multiset(a) == multiset(b)
    ensures multiset(Project(f, a)) == multiset(Project(f, b))
  {
    if |a| == 0 {
      assert |multiset(b)| == 0;
    } else {
      assert a[0] in multiset(b);
      var k :| 0 <= k < |b| && b[k] == a[0];
      RemoveMatchingHead(a, b, k);
      ProjectPermutation(f, a[1..], b[..k] + b[k + 1..]);
      ProjectMoveToFront(f, b, k);
      ProjectConcat(f, [a[0]], a[1..]);
    }
  }
}
