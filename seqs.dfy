/** Sequence operations that stand for Python list operations: `list.remove`, reversal and `sort`. */
module Seqs {

  /** `list.remove(x)`: drop the first occurrence of `x`. */
  function RemoveFirst<T(==)>(s: seq<T>, x: T): (r: seq<T>)
    requires x in s
    ensures |r| == |s| - 1
    ensures multiset(r) == multiset(s) - multiset{x}
  {
    assert s == [s[0]] + s[1..];
    if s[0] == x then s[1..]
    else
      assert s == [s[0]] + s[1..];
      [s[0]] + RemoveFirst(s[1..], x)
  }

  function Reversed<T>(s: seq<T>): (r: seq<T>)
    ensures |r| == |s|
  {
    if s == [] then [] else Reversed(s[1..]) + [s[0]]
  }

  /** Reversal is a permutation. */
  lemma {:induction false} ReversedMultiset<T>(s: seq<T>)
    ensures multiset(Reversed(s)) == multiset(s)
  {
    if s != [] {
      assert s == [s[0]] + s[1..];
      ReversedMultiset(s[1..]);
    }
  }

  lemma {:induction false} ReversedAt<T>(s: seq<T>, k: nat)
    requires k < |s|
    ensures Reversed(s)[k] == s[|s| - 1 - k]
  {
    if k < |s| - 1 {
      ReversedAt(s[1..], k);
    }
  }

  lemma {:induction false} ReversedAppend<T>(a: seq<T>, b: seq<T>)
    ensures Reversed(a + b) == Reversed(b) + Reversed(a)
  {
    if a == [] {
      assert a + b == b;
    } else {
      assert (a + b)[1..] == a[1..] + b;
      ReversedAppend(a[1..], b);
    }
  }

  lemma ReversedSplit<T>(s: seq<T>, i: nat)
    requires i <= |s|
    ensures Reversed(s) == Reversed(s[i..]) + Reversed(s[..i])
  {
    assert s == s[..i] + s[i..];
    ReversedAppend(s[..i], s[i..]);
  }

  lemma AppendAssociative<T>(a: seq<T>, b: seq<T>, c: seq<T>)
    ensures a + b + c == a + (b + c)
  {
  }

  lemma AppendFirst<T>(a: seq<T>, s: seq<T>)
    requires s != []
    ensures a + s == (a + [s[0]]) + s[1..]
  {
    assert s == [s[0]] + s[1..];
  }

  /** No element occurs twice. */
  predicate NoDuplicates<T(==)>(s: seq<T>) {
    forall i, j :: 0 <= i < j < |s| ==> s[i] != s[j]
  }

  /** A sequence has no duplicates exactly when no element occurs in it more than once. */
  lemma {:induction false} NoDuplicatesMultiset<T>(s: seq<T>)
    ensures NoDuplicates(s) <==> forall x :: multiset(s)[x] <= 1
  {
    if s != [] {
      var t := s[1..];
      assert s == [s[0]] + t;
      NoDuplicatesMultiset(t);
      if NoDuplicates(s) {
        assert NoDuplicates(t) by {
          forall i, j | 0 <= i < j < |t| ensures t[i] != t[j] {
            assert t[i] == s[i + 1] && t[j] == s[j + 1];
          }
        }
        assert s[0] !in t by {
          forall k | 0 <= k < |t| ensures t[k] != s[0] {
            assert t[k] == s[k + 1];
          }
        }
      }
      if forall x :: multiset(s)[x] <= 1 {
        forall x ensures multiset(t)[x] <= 1 {
          assert multiset(s)[x] == multiset(t)[x] + (if x == s[0] then 1 else 0);
        }
        assert multiset(s)[s[0]] == multiset(t)[s[0]] + 1;
        forall i, j | 0 <= i < j < |s| ensures s[i] != s[j] {
          assert s[j] == t[j - 1];
          if i > 0 {
            assert s[i] == t[i - 1];
          } else {
            assert s[j] in multiset(t);
          }
        }
      }
    }
  }

  /** Adding an element that is not there yet, at either end, keeps a sequence free of duplicates. */
  lemma NoDuplicatesExtend<T>(x: T, s: seq<T>)
    requires NoDuplicates(s) && x !in s
    ensures NoDuplicates([x] + s) && NoDuplicates(s + [x])
  {
    var a, b := [x] + s, s + [x];
    forall i, j | 0 <= i < j < |a| ensures a[i] != a[j] {
      assert a[j] == s[j - 1];
      if i > 0 { assert a[i] == s[i - 1]; }
    }
    forall i, j | 0 <= i < j < |b| ensures b[i] != b[j] {
      assert b[i] == s[i];
      if j < |s| { assert b[j] == s[j]; }
    }
  }

  /** `lt` is a strict total order on the whole type. */
  ghost predicate StrictTotalOrder<T(!new)>(lt: (T, T) -> bool) {
    && (forall x :: !lt(x, x))
    && (forall x, y, z :: lt(x, y) && lt(y, z) ==> lt(x, z))
    && (forall x, y :: x != y ==> lt(x, y) || lt(y, x))
  }

  /** No element is greater than one that comes after it. */
  predicate Sorted<T>(s: seq<T>, lt: (T, T) -> bool) {
    forall i, j :: 0 <= i < j < |s| ==> !lt(s[j], s[i])
  }

  function Insert<T>(x: T, s: seq<T>, lt: (T, T) -> bool): (r: seq<T>)
    ensures multiset(r) == multiset(s) + multiset{x}
    ensures |r| == |s| + 1
  {
    if s == [] then [x]
    else if lt(s[0], x) then
      assert s == [s[0]] + s[1..];
      [s[0]] + Insert(x, s[1..], lt)
    else [x] + s
  }

  /** Python's `list.sort()` on a list whose elements are totally ordered: a sorted permutation. */
  function Sort<T>(s: seq<T>, lt: (T, T) -> bool): (r: seq<T>)
    ensures multiset(r) == multiset(s)
    ensures |r| == |s|
  {
    if s == [] then []
    else
      assert s == [s[0]] + s[1..];
      Insert(s[0], Sort(s[1..], lt), lt)
  }

  lemma {:induction false} InsertSorted<T(!new)>(x: T, s: seq<T>, lt: (T, T) -> bool)
    requires StrictTotalOrder(lt)
    requires Sorted(s, lt)
    ensures Sorted(Insert(x, s, lt), lt)
  {
    if s != [] && lt(s[0], x) {
      InsertSorted(x, s[1..], lt);
      var r := Insert(x, s[1..], lt);
      forall j | 0 <= j < |r| ensures !lt(r[j], s[0]) {
        assert r[j] in multiset(r);
        assert r[j] == x || r[j] in multiset(s[1..]);
        if r[j] != x {
          var i :| 0 <= i < |s[1..]| && s[1..][i] == r[j];
          assert s[i + 1] == r[j];
        }
      }
    }
  }

  lemma {:induction false} SortSorted<T(!new)>(s: seq<T>, lt: (T, T) -> bool)
    requires StrictTotalOrder(lt)
    ensures Sorted(Sort(s, lt), lt)
  {
    if s != [] {
      SortSorted(s[1..], lt);
      InsertSorted(s[0], Sort(s[1..], lt), lt);
    }
  }

  /** Sorting a strictly ascending sequence leaves it as it is. */
  lemma SortOfAscending<T(!new)>(s: seq<T>, lt: (T, T) -> bool)
    requires StrictTotalOrder(lt)
    requires forall i, j :: 0 <= i < j < |s| ==> lt(s[i], s[j])
    ensures Sort(s, lt) == s
  {
    forall i, j | 0 <= i < j < |s| ensures !lt(s[j], s[i]) {
      Asymmetric(s[i], s[j], lt);
    }
    SortOfSorted(s, lt);
  }

  /** Sorting leaves a sorted sequence as it is: each element is inserted in front of the rest. */
  lemma {:induction false} SortOfSorted<T>(s: seq<T>, lt: (T, T) -> bool)
    requires Sorted(s, lt)
    ensures Sort(s, lt) == s
  {
    if s != [] {
      var t := s[1..];
      SortedTail(s, lt);
      SortOfSorted(t, lt);
      assert t != [] ==> t[0] == s[1];
      InsertAtFront(s[0], t, lt);
      assert s == [s[0]] + t;
    }
  }

  lemma SortedTail<T>(s: seq<T>, lt: (T, T) -> bool)
    requires s != [] && Sorted(s, lt)
    ensures Sorted(s[1..], lt)
  {
    forall i, j | 0 <= i < j < |s[1..]| ensures !lt(s[1..][j], s[1..][i]) {
      assert s[1..][i] == s[i + 1] && s[1..][j] == s[j + 1];
    }
  }

  lemma Asymmetric<T(!new)>(x: T, y: T, lt: (T, T) -> bool)
    requires StrictTotalOrder(lt) && lt(x, y)
    ensures !lt(y, x)
  {
    assert lt(y, x) ==> lt(x, x);
  }

  lemma InsertAtFront<T>(x: T, s: seq<T>, lt: (T, T) -> bool)
    requires s == [] || !lt(s[0], x)
    ensures Insert(x, s, lt) == [x] + s
  {
  }

  lemma SortMembership<T>(s: seq<T>, lt: (T, T) -> bool, x: T)
    ensures x in Sort(s, lt) <==> x in s
  {
    assert x in Sort(s, lt) <==> x in multiset(Sort(s, lt));
    assert x in s <==> x in multiset(s);
  }

  /** Sum of a measure over a sequence. */
  function SumOf<T>(s: seq<T>, f: T -> nat): nat {
    if s == [] then 0 else f(s[0]) + SumOf(s[1..], f)
  }

  lemma {:induction false} SumOfConcat<T>(a: seq<T>, b: seq<T>, f: T -> nat)
    ensures SumOf(a + b, f) == SumOf(a, f) + SumOf(b, f)
  {
    if a == [] {
      assert a + b == b;
    } else {
      assert (a + b)[1..] == a[1..] + b;
      assert (a + b)[0] == a[0];
      SumOfConcat(a[1..], b, f);
    }
  }

  lemma {:induction false} SumOfRemoveFirst<T>(s: seq<T>, x: T, f: T -> nat)
    requires x in s
    ensures SumOf(RemoveFirst(s, x), f) + f(x) == SumOf(s, f)
  {
    if s[0] != x {
      SumOfRemoveFirst(s[1..], x, f);
      assert ([s[0]] + RemoveFirst(s[1..], x))[1..] == RemoveFirst(s[1..], x);
    }
  }

  lemma {:induction false} SumOfInsert<T>(x: T, s: seq<T>, lt: (T, T) -> bool, f: T -> nat)
    ensures SumOf(Insert(x, s, lt), f) == f(x) + SumOf(s, f)
  {
    if s == [] {
    } else if lt(s[0], x) {
      SumOfInsert(x, s[1..], lt, f);
      assert ([s[0]] + Insert(x, s[1..], lt))[1..] == Insert(x, s[1..], lt);
    } else {
      assert ([x] + s)[1..] == s;
    }
  }

  lemma {:induction false} SumOfSort<T>(s: seq<T>, lt: (T, T) -> bool, f: T -> nat)
    ensures SumOf(Sort(s, lt), f) == SumOf(s, f)
  {
    if s != [] {
      SumOfSort(s[1..], lt, f);
      SumOfInsert(s[0], Sort(s[1..], lt), lt, f);
    }
  }
}
