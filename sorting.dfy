/**
 * `Array.prototype.sort` with a comparator, as the components call it on a
 * freshly built array: the array is sorted in place by an order `le`
 * ("may stay before"), and the result is a reordering of its input.
 */
module Sorting {

  /** `le` relates every two values one way or the other. */
  ghost predicate Total<T(!new)>(le: (T, T) -> bool)
  {
    forall x, y :: le(x, y) || le(y, x)
  }

  ghost predicate Transitive<T(!new)>(le: (T, T) -> bool)
  {
    forall x, y, z :: le(x, y) && le(y, z) ==> le(x, z)
  }

  /** Every element may stay before every later one. */
  predicate SortedBy<T>(s: seq<T>, le: (T, T) -> bool)
  {
    forall i, j :: 0 <= i < j < |s| ==> le(s[i], s[j])
  }

  /**
   * Sorts `a` in place: each element is moved left past the elements that
   * may not stay before it.
   */
  method InsertionSort<T(!new)>(a: array<T>, le: (T, T) -> bool)
    requires Total(le) && Transitive(le)
    modifies a
    ensures SortedBy(a[..], le)
    ensures multiset(a[..]) == multiset(old(a[..]))
  {
    var i := 0;
    while i < a.Length
      invariant 0 <= i <= a.Length
      invariant SortedBy(a[..i], le)
      invariant multiset(a[..]) == multiset(old(a[..]))
    {
      InsertNext(a, i, le);
      i := i + 1;
    }
    assert a[..i] == a[..];
  }

  /**
   * One pass of the sort: with `a[..i]` sorted, moves `a[i]` left until it
   * may stay after its left neighbour.
   */
  method InsertNext<T(!new)>(a: array<T>, i: int, le: (T, T) -> bool)
    requires Total(le) && Transitive(le)
    requires 0 <= i < a.Length && SortedBy(a[..i], le)
    modifies a
    ensures SortedBy(a[..i + 1], le)
    ensures multiset(a[..]) == multiset(old(a[..]))
  {
    var j := i;
    while j > 0 && !le(a[j - 1], a[j])
      invariant 0 <= j <= i
      invariant Inserting(a[..], i, j, le)
      invariant multiset(a[..]) == multiset(old(a[..]))
    {
      ghost var s := a[..];
      a[j - 1], a[j] := a[j], a[j - 1];
      assert a[..] == s[j - 1 := s[j]][j := s[j - 1]];
      SwapLeft(s, i, j, le);
      j := j - 1;
    }
    InsertDone(a[..], i, j, le);
  }

  /**
   * The pass's state: the element being inserted sits at `j`, may stay
   * before everything after it up to `i`, and the other elements up to `i`
   * are in order.
   */
  predicate Inserting<T>(s: seq<T>, i: int, j: int, le: (T, T) -> bool)
  {
    && 0 <= j <= i < |s|
    && (forall p, q :: 0 <= p < q <= i && p != j && q != j ==> le(s[p], s[q]))
    && (forall q :: j < q <= i ==> le(s[j], s[q]))
  }

  /** Swapping the inserted element with a left neighbour it may not follow keeps the pass's state, one place further left. */
  lemma {:induction false} SwapLeft<T(!new)>(s: seq<T>, i: int, j: int, le: (T, T) -> bool)
    requires Total(le) && Transitive(le)
    requires Inserting(s, i, j, le) && 0 < j && !le(s[j - 1], s[j])
    ensures Inserting(s[j - 1 := s[j]][j := s[j - 1]], i, j - 1, le)
    ensures multiset(s[j - 1 := s[j]][j := s[j - 1]]) == multiset(s)
  {
    var t := s[j - 1 := s[j]][j := s[j - 1]];
    assert le(s[j], s[j - 1]);
    forall q | j - 1 < q <= i
      ensures le(t[j - 1], t[q])
    {
    }
  }

  /** When the inserted element may follow its left neighbour (or reached the front), the first `i + 1` elements are sorted. */
  lemma {:induction false} InsertDone<T(!new)>(s: seq<T>, i: int, j: int, le: (T, T) -> bool)
    requires Transitive(le)
    requires Inserting(s, i, j, le) && (j == 0 || le(s[j - 1], s[j]))
    ensures SortedBy(s[..i + 1], le)
  {
    forall p, q | 0 <= p < q <= i
      ensures le(s[p], s[q])
    {
      if p == j || q == j {
      } else if p < j < q {
        assert le(s[p], s[j]) by {
          if p < j - 1 {
            assert le(s[p], s[j - 1]);
          }
        }
      }
    }
  }

  /** Sorts a copy of `s`; `s` itself is a value and stays as it is. */
  method Sort<T(!new)>(s: seq<T>, le: (T, T) -> bool) returns (r: seq<T>)
    requires Total(le) && Transitive(le)
    ensures SortedBy(r, le)
    ensures multiset(r) == multiset(s)
    ensures |r| == |s|
  {
    var a := new T[|s|](i requires 0 <= i < |s| => s[i]);
    assert a[..] == s;
    InsertionSort(a, le);
    r := a[..];
    assert |r| == |multiset(r)| == |multiset(s)| == |s|;
  }

  /** Sorting keeps exactly the elements it was given. */
  lemma {:induction false} SortedMembers<T>(r: seq<T>, s: seq<T>)
    requires multiset(r) == multiset(s)
    ensures forall x :: x in r <==> x in s
  {
    forall x
      ensures x in r <==> x in s
    {
      assert x in r <==> x in multiset(r);
      assert x in s <==> x in multiset(s);
    }
  }
}
