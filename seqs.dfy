/**
 * Sequence operations in the shape JavaScript's array methods give them:
 * `filter`, `reduce` to a sum, `[...new Set(xs)]` de-duplication, and the
 * group-by-key accumulation the components write as `reduce` over an object
 * or `forEach` over a `Map`. Folds run from the right end so that they agree
 * with a left-to-right loop over a growing prefix.
 */
module Seqs {

  /** `s.filter(p)`: the elements satisfying `p`, in order. */
  function Filter<T>(s: seq<T>, p: T -> bool): (r: seq<T>)
    ensures |r| <= |s|
    ensures forall i :: 0 <= i < |r| ==> p(r[i])
  {
    if s == [] then [] else Filter(s[..|s| - 1], p) + (if p(s[|s| - 1]) then [s[|s| - 1]] else [])
  }

  /** `r` is `s` with some elements dropped and the rest kept in order. */
  predicate IsSubsequence<T(==)>(r: seq<T>, s: seq<T>)
    decreases |s|
  {
    if r == [] then true
    else if s == [] then false
    else if r[|r| - 1] == s[|s| - 1] then IsSubsequence(r[..|r| - 1], s[..|s| - 1])
    else IsSubsequence(r, s[..|s| - 1])
  }

  /** A filter result is an order-preserving subsequence of its input. */
  lemma {:induction false} FilterIsSubsequence<T>(s: seq<T>, p: T -> bool)
    ensures IsSubsequence(Filter(s, p), s)
  {
    if s != [] {
      var init := s[..|s| - 1];
      FilterIsSubsequence(init, p);
      var r := Filter(s, p);
      if p(s[|s| - 1]) {
        assert r[..|r| - 1] == Filter(init, p);
      } else {
        assert r == Filter(init, p);
        SubsequenceExtend(r, init, s[|s| - 1]);
        assert init + [s[|s| - 1]] == s;
      }
    }
  }

  lemma {:induction false} SubsequenceExtend<T>(r: seq<T>, s: seq<T>, x: T)
    requires IsSubsequence(r, s)
    ensures IsSubsequence(r, s + [x])
    decreases |s|, 1
  {
    assert (s + [x])[..|s|] == s;
    if r != [] && r[|r| - 1] == x {
      SubsequenceDropLast(r, s);
    }
  }

  /** A subsequence of `s` with its last element removed is still a subsequence of `s`. */
  lemma {:induction false} SubsequenceDropLast<T>(r: seq<T>, s: seq<T>)
    requires r != [] && IsSubsequence(r, s)
    ensures IsSubsequence(r[..|r| - 1], s)
    decreases |s|, 0
  {
    var r' := r[..|r| - 1];
    var s' := s[..|s| - 1];
    assert s' + [s[|s| - 1]] == s;
    if r' != [] {
      if r[|r| - 1] == s[|s| - 1] {
        SubsequenceExtend(r', s', s[|s| - 1]);
      } else {
        SubsequenceDropLast(r, s');
        SubsequenceExtend(r', s', s[|s| - 1]);
      }
    }
  }

  /** A prefix one longer is the shorter prefix and the next element. */
  lemma {:induction false} PrefixSnoc<T>(s: seq<T>, i: int)
    requires 0 <= i < |s|
    ensures s[..i + 1] == s[..i] + [s[i]]
  {
  }

  /** An element is kept by `Filter` exactly when it is in the input and satisfies the predicate. */
  lemma {:induction false} FilterMembership<T>(s: seq<T>, p: T -> bool, x: T)
    ensures x in Filter(s, p) <==> x in s && p(x)
  {
    if s != [] {
      FilterMembership(s[..|s| - 1], p, x);
      assert s == s[..|s| - 1] + [s[|s| - 1]];
    }
  }

  /** Filtering with a predicate every element satisfies returns the input unchanged. */
  lemma {:induction false} FilterAll<T>(s: seq<T>, p: T -> bool)
    requires forall i :: 0 <= i < |s| ==> p(s[i])
    ensures Filter(s, p) == s
  {
    if s != [] {
      FilterAll(s[..|s| - 1], p);
    }
  }

  /** Appending one element extends the filter result by that element when it passes. */
  lemma {:induction false} FilterSnoc<T>(s: seq<T>, x: T, p: T -> bool)
    ensures Filter(s + [x], p) == Filter(s, p) + (if p(x) then [x] else [])
  {
    assert (s + [x])[..|s|] == s;
  }

  /** `s.reduce((sum, x) => sum + f(x), 0)`. */
  function Sum<T>(s: seq<T>, f: T -> int): int
  {
    if s == [] then 0 else Sum(s[..|s| - 1], f) + f(s[|s| - 1])
  }

  lemma {:induction false} SumAppend<T>(a: seq<T>, b: seq<T>, f: T -> int)
    ensures Sum(a + b, f) == Sum(a, f) + Sum(b, f)
    decreases |b|
  {
    if b == [] {
      assert a + b == a;
    } else {
      SumAppend(a, b[..|b| - 1], f);
      assert (a + b)[..|a + b| - 1] == a + b[..|b| - 1];
    }
  }

  /** Removing one element takes exactly its value off the sum. */
  lemma {:induction false} SumRemoveAt<T>(s: seq<T>, i: int, f: T -> int)
    requires 0 <= i < |s|
    ensures Sum(s, f) == Sum(s[..i] + s[i + 1..], f) + f(s[i])
  {
    assert s == s[..i] + [s[i]] + s[i + 1..];
    SumAppend(s[..i] + [s[i]], s[i + 1..], f);
    SumAppend(s[..i], [s[i]], f);
    SumAppend(s[..i], s[i + 1..], f);
    assert Sum([s[i]], f) == Sum([], f) + f(s[i]);
  }

  /** The sum does not depend on the order of the elements. */
  lemma {:induction false} SumPermutation<T>(s: seq<T>, t: seq<T>, f: T -> int)
    requires multiset(s) == multiset(t)
    ensures Sum(s, f) == Sum(t, f)
    decreases |s|
  {
    if s != [] {
      var x := s[|s| - 1];
      assert x in multiset(t);
      var i :| 0 <= i < |t| && t[i] == x;
      var t' := t[..i] + t[i + 1..];
      assert t == t[..i] + [t[i]] + t[i + 1..];
      assert s == s[..|s| - 1] + [x];
      assert multiset(t) == multiset(t[..i]) + multiset{x} + multiset(t[i + 1..]);
      assert multiset(s) == multiset(s[..|s| - 1]) + multiset{x};
      assert multiset(t') == multiset(t[..i]) + multiset(t[i + 1..]);
      assert multiset(t') == multiset(t) - multiset{x};
      assert multiset(s[..|s| - 1]) == multiset(s) - multiset{x};
      SumPermutation(s[..|s| - 1], t', f);
      SumRemoveAt(t, i, f);
    } else {
      assert t == [];
    }
  }

  /** The elements of `s` mapped through `f` (`s.map(f)`). */
  function MapSeq<T, U>(s: seq<T>, f: T -> U): (r: seq<U>)
    ensures |r| == |s| && forall i :: 0 <= i < |s| ==> r[i] == f(s[i])
  {
    seq(|s|, i requires 0 <= i < |s| => f(s[i]))
  }

  /** The image of a non-empty sequence holds the image of its first element. */
  lemma {:induction false} MapSeqHead<T, U>(s: seq<T>, f: T -> U)
    ensures |s| > 0 ==> f(s[0]) in MapSeq(s, f)
  {
    assert |s| > 0 ==> MapSeq(s, f)[0] == f(s[0]);
  }

  predicate NoDuplicates<T(==)>(s: seq<T>)
  {
    forall i, j :: 0 <= i < j < |s| ==> s[i] != s[j]
  }

  /** A sequence has no duplicates exactly when no element occurs twice in its multiset. */
  lemma {:induction false} NoDuplicatesMultiset<T>(s: seq<T>)
    ensures NoDuplicates(s) <==> forall x :: multiset(s)[x] <= 1
  {
    if NoDuplicates(s) {
      NoDuplicatesCount(s);
    }
    if !NoDuplicates(s) {
      var i, j :| 0 <= i < j < |s| && s[i] == s[j];
      assert s == s[..j] + [s[j]] + s[j + 1..];
      assert s[i] in multiset(s[..j]);
      assert multiset(s)[s[j]] >= 2;
    }
  }

  lemma {:induction false} NoDuplicatesCount<T>(s: seq<T>)
    requires NoDuplicates(s)
    ensures forall x :: multiset(s)[x] <= 1
  {
    if s != [] {
      var init := s[..|s| - 1];
      NoDuplicatesCount(init);
      assert s == init + [s[|s| - 1]];
      assert s[|s| - 1] !in init;
    }
  }

  /** Reordering keeps a sequence free of duplicates. */
  lemma {:induction false} NoDuplicatesPermutation<T>(s: seq<T>, t: seq<T>)
    requires multiset(s) == multiset(t) && NoDuplicates(s)
    ensures NoDuplicates(t)
  {
    NoDuplicatesMultiset(s);
    NoDuplicatesMultiset(t);
  }

  /** Reordering keeps the images of the elements under `f` free of duplicates. */
  lemma {:induction false} MapSeqNoDuplicatesPermutation<T, U>(s: seq<T>, t: seq<T>, f: T -> U)
    requires multiset(s) == multiset(t) && NoDuplicates(MapSeq(s, f))
    ensures NoDuplicates(MapSeq(t, f))
  {
    var m := MapSeq(s, f);
    assert NoDuplicates(s) by {
      forall i, j | 0 <= i < j < |s|
        ensures s[i] != s[j]
      {
        assert m[i] != m[j];
      }
    }
    NoDuplicatesPermutation(s, t);
    forall i, j | 0 <= i < j < |t|
      ensures f(t[i]) != f(t[j])
    {
      assert t[i] in multiset(s) && t[j] in multiset(s);
      var p :| 0 <= p < |s| && s[p] == t[i];
      var q :| 0 <= q < |s| && s[q] == t[j];
      assert p != q;
      if p < q {
        assert m[p] != m[q];
      } else {
        assert m[q] != m[p];
      }
    }
  }

  /** Reordering keeps the set of images under `f`. */
  lemma {:induction false} MapSeqPermutationMembers<T, U>(s: seq<T>, t: seq<T>, f: T -> U)
    requires multiset(s) == multiset(t)
    ensures forall y :: y in MapSeq(s, f) <==> y in MapSeq(t, f)
  {
    forall y | y in MapSeq(s, f)
      ensures y in MapSeq(t, f)
    {
      var i :| 0 <= i < |s| && MapSeq(s, f)[i] == y;
      assert s[i] in multiset(t);
      var j :| 0 <= j < |t| && t[j] == s[i];
      assert MapSeq(t, f)[j] == y;
    }
    forall y | y in MapSeq(t, f)
      ensures y in MapSeq(s, f)
    {
      var j :| 0 <= j < |t| && MapSeq(t, f)[j] == y;
      assert t[j] in multiset(s);
      var i :| 0 <= i < |s| && s[i] == t[j];
      assert MapSeq(s, f)[i] == y;
    }
  }

  /** `[...new Set(s)]`: each element once, at the place of its first occurrence. */
  function Dedup<T(==)>(s: seq<T>): seq<T>
  {
    if s == [] then []
    else
      var d := Dedup(s[..|s| - 1]);
      if s[|s| - 1] in d then d else d + [s[|s| - 1]]
  }

  /** Position of the first occurrence of `x` in `s`. */
  function FirstIndex<T(==)>(s: seq<T>, x: T): (k: nat)
    requires x in s
    ensures k < |s| && s[k] == x && x !in s[..k]
  {
    if s[0] == x then 0 else 1 + FirstIndex(s[1..], x)
  }

  lemma {:induction false} FirstIndexPrefix<T>(s: seq<T>, n: nat, x: T)
    requires n <= |s| && x in s[..n]
    ensures FirstIndex(s, x) == FirstIndex(s[..n], x)
  {
    var k := FirstIndex(s[..n], x);
    var k' := FirstIndex(s, x);
    assert s[..n][..k] == s[..k];
  }

  /**
   * `Dedup` keeps every element exactly once, nothing else, and in the order
   * of first occurrence.
   */
  lemma {:induction false} DedupSpec<T>(s: seq<T>)
    ensures NoDuplicates(Dedup(s))
    ensures forall x :: x in Dedup(s) <==> x in s
    ensures forall i, j :: 0 <= i < j < |Dedup(s)| ==>
      FirstIndex(s, Dedup(s)[i]) < FirstIndex(s, Dedup(s)[j])
  {
    if s != [] {
      var init := s[..|s| - 1];
      var x := s[|s| - 1];
      DedupSpec(init);
      var d := Dedup(init);
      assert s == init + [x];
      forall y | y in init
        ensures FirstIndex(s, y) == FirstIndex(init, y)
      {
        FirstIndexPrefix(s, |s| - 1, y);
      }
      if x !in d {
        assert x !in init;
        assert FirstIndex(s, x) == |s| - 1;
      }
    }
  }

  /** Sum of `amount` over the rows whose key is `k`. */
  function KeySum<T>(rows: seq<T>, key: T -> string, amount: T -> int, k: string): int
  {
    if rows == [] then 0
    else
      var last := rows[|rows| - 1];
      KeySum(rows[..|rows| - 1], key, amount, k) + (if key(last) == k then amount(last) else 0)
  }

  /** Sum, over a list of keys, of each key's `KeySum`. */
  function SumOfKeySums<T>(rows: seq<T>, key: T -> string, amount: T -> int, ks: seq<string>): int
  {
    if ks == [] then 0
    else SumOfKeySums(rows, key, amount, ks[..|ks| - 1]) + KeySum(rows, key, amount, ks[|ks| - 1])
  }

  lemma {:induction false} SumOfKeySumsStep<T>(rows: seq<T>, r: T, key: T -> string, amount: T -> int, ks: seq<string>)
    requires NoDuplicates(ks)
    ensures SumOfKeySums(rows + [r], key, amount, ks)
         == SumOfKeySums(rows, key, amount, ks) + (if key(r) in ks then amount(r) else 0)
  {
    assert (rows + [r])[..|rows|] == rows;
    if ks != [] {
      var init := ks[..|ks| - 1];
      assert NoDuplicates(init);
      SumOfKeySumsStep(rows, r, key, amount, init);
      assert ks == init + [ks[|ks| - 1]];
      assert key(r) in ks <==> key(r) in init || key(r) == ks[|ks| - 1];
    }
  }

  /**
   * Grouping by key loses and duplicates nothing: over distinct keys that
   * cover every row, the group sums add up to the sum of all rows.
   */
  lemma {:induction false} KeySumPartition<T>(rows: seq<T>, key: T -> string, amount: T -> int, ks: seq<string>)
    requires NoDuplicates(ks)
    requires forall i :: 0 <= i < |rows| ==> key(rows[i]) in ks
    ensures SumOfKeySums(rows, key, amount, ks) == Sum(rows, amount)
  {
    if rows == [] {
      SumOfKeySumsEmpty(key, amount, ks);
    } else {
      var init := rows[..|rows| - 1];
      KeySumPartition(init, key, amount, ks);
      SumOfKeySumsStep(init, rows[|rows| - 1], key, amount, ks);
      assert init + [rows[|rows| - 1]] == rows;
    }
  }

  lemma {:induction false} SumOfKeySumsEmpty<T>(key: T -> string, amount: T -> int, ks: seq<string>)
    ensures SumOfKeySums([], key, amount, ks) == 0
  {
    if ks != [] {
      SumOfKeySumsEmpty(key, amount, ks[..|ks| - 1]);
    }
  }

  /** Filtering by a key and summing gives that key's group sum. */
  lemma {:induction false} FilterSumIsKeySum<T>(rows: seq<T>, p: T -> bool, key: T -> string, amount: T -> int, k: string)
    requires forall x :: p(x) <==> key(x) == k
    ensures Sum(Filter(rows, p), amount) == KeySum(rows, key, amount, k)
  {
    if rows != [] {
      var init := rows[..|rows| - 1];
      var last := rows[|rows| - 1];
      FilterSumIsKeySum(init, p, key, amount, k);
      assert init + [last] == rows;
      FilterSnoc(init, last, p);
      SumAppend(Filter(init, p), if p(last) then [last] else [], amount);
      if p(last) {
        assert Sum([last], amount) == Sum([], amount) + amount(last);
      }
    }
  }

  /** A key no row carries has an empty group. */
  lemma {:induction false} KeySumAbsent<T>(rows: seq<T>, key: T -> string, amount: T -> int, k: string)
    requires forall i :: 0 <= i < |rows| ==> key(rows[i]) != k
    ensures KeySum(rows, key, amount, k) == 0
  {
    if rows != [] {
      KeySumAbsent(rows[..|rows| - 1], key, amount, k);
    }
  }

  lemma {:induction false} KeySumSnoc<T>(rows: seq<T>, r: T, key: T -> string, amount: T -> int, k: string)
    ensures KeySum(rows + [r], key, amount, k)
         == KeySum(rows, key, amount, k) + (if key(r) == k then amount(r) else 0)
  {
    assert (rows + [r])[..|rows|] == rows;
  }

  lemma {:induction false} DedupSnoc<T>(xs: seq<T>, x: T)
    ensures Dedup(xs + [x]) == if x in Dedup(xs) then Dedup(xs) else Dedup(xs) + [x]
  {
    assert (xs + [x])[..|xs|] == xs;
  }

  /** The accumulation's state after `rows`: the keys met so far, in order, each with its running total. */
  ghost predicate GroupState<T>(rows: seq<T>, key: T -> string, amount: T -> int, keys: seq<string>, sums: map<string, int>)
  {
    && keys == Dedup(MapSeq(rows, key))
    && (forall k :: k in sums <==> k in keys)
    && (forall k :: k in sums ==> sums[k] == KeySum(rows, key, amount, k))
  }

  /** The keys after one more row: its key is appended unless it was already met. */
  lemma {:induction false} GroupKeysAdvance<T>(prefix: seq<T>, r: T, key: T -> string, keys: seq<string>, keys': seq<string>)
    requires keys == Dedup(MapSeq(prefix, key))
    requires keys' == (if key(r) in keys then keys else keys + [key(r)])
    ensures keys' == Dedup(MapSeq(prefix + [r], key))
  {
    assert MapSeq(prefix + [r], key) == MapSeq(prefix, key) + [key(r)];
    DedupSnoc(MapSeq(prefix, key), key(r));
  }

  /** The totals after one more row: its amount is added to its key's total, which starts from zero on first sight. */
  lemma {:induction false} GroupSumsAdvance<T>(prefix: seq<T>, r: T, key: T -> string, amount: T -> int,
                                               sums: map<string, int>, sums': map<string, int>)
    requires forall c :: c in sums ==> sums[c] == KeySum(prefix, key, amount, c)
    requires key(r) !in sums ==> forall j :: 0 <= j < |prefix| ==> key(prefix[j]) != key(r)
    requires sums' == sums[key(r) := (if key(r) in sums then sums[key(r)] else 0) + amount(r)]
    ensures forall c :: c in sums' ==> sums'[c] == KeySum(prefix + [r], key, amount, c)
  {
    if key(r) !in sums {
      KeySumAbsent(prefix, key, amount, key(r));
    }
    forall c | c in sums'
      ensures sums'[c] == KeySum(prefix + [r], key, amount, c)
    {
      KeySumSnoc(prefix, r, key, amount, c);
    }
  }

  /**
   * One more row: its key joins the keys on first sight, with a total
   * starting from zero, and its amount is added to its key's total; the
   * other totals stay.
   */
  lemma {:induction false} GroupAdvance<T>(prefix: seq<T>, r: T, key: T -> string, amount: T -> int,
                                           keys: seq<string>, sums: map<string, int>, keys': seq<string>, sums': map<string, int>)
    requires GroupState(prefix, key, amount, keys, sums)
    requires var k := key(r);
      && keys' == (if k in sums then keys else keys + [k])
      && sums' == sums[k := (if k in sums then sums[k] else 0) + amount(r)]
    ensures GroupState(prefix + [r], key, amount, keys', sums')
  {
    assert key(r) in sums <==> key(r) in keys;
    GroupKeysAdvance(prefix, r, key, keys, keys');
    assert key(r) !in sums ==> forall j :: 0 <= j < |prefix| ==> key(prefix[j]) != key(r) by {
      if key(r) !in sums {
        DedupSpec(MapSeq(prefix, key));
        assert key(r) !in MapSeq(prefix, key);
      }
    }
    GroupSumsAdvance(prefix, r, key, amount, sums, sums');
  }

  /**
   * The accumulation loop the components run: for each row, add its amount
   * to its key's running total, creating the total on first sight of the key.
   * The keys come out in first-occurrence order (the insertion order of a
   * JavaScript `Map` or object).
   */
  method GroupSum<T>(rows: seq<T>, key: T -> string, amount: T -> int)
    returns (keys: seq<string>, sums: map<string, int>)
    ensures keys == Dedup(MapSeq(rows, key))
    ensures forall k :: k in sums <==> k in keys
    ensures forall k :: k in sums ==> sums[k] == KeySum(rows, key, amount, k)
  {
    keys, sums := [], map[];
    var i := 0;
    while i < |rows|
      invariant 0 <= i <= |rows|
      invariant GroupState(rows[..i], key, amount, keys, sums)
    {
      var r := rows[i];
      var k := key(r);
      ghost var (keys0, sums0) := (keys, sums);
      if k in sums {
        sums := sums[k := sums[k] + amount(r)];
      } else {
        sums := sums[k := amount(r)];
        keys := keys + [k];
      }
      PrefixSnoc(rows, i);
      GroupAdvance(rows[..i], r, key, amount, keys0, sums0, keys, sums);
      i := i + 1;
    }
    assert rows[..i] == rows;
  }
}
