/**
 * Sums grouped by a text key: rows are grouped by `key` (a category, a
 * week) and each group's amounts are summed, with the keys in the order
 * they are first met. The dashboard does this with a `Map` filled in a
 * `forEach`, the analytics page with `reduce` into an object; both give the
 * same name/value pairs.
 */
module Grouping {
  import opened Seqs
  import opened Sorting

  /** A pie-chart slice or a chart bar: a key and the total of its group. */
  datatype Slice = Slice(name: string, value: int)

  function NameOf(s: Slice): string
  {
    s.name
  }

  function ValueOf(s: Slice): int
  {
    s.value
  }

  /** The keys of `rows`, each once, in first-occurrence order. */
  function Keys<T>(rows: seq<T>, key: T -> string): seq<string>
  {
    Dedup(MapSeq(rows, key))
  }

  /** One slice per listed key, valued at the sum of the amounts of the rows carrying it. */
  function SlicesFor<T>(rows: seq<T>, key: T -> string, amount: T -> int, keys: seq<string>): (r: seq<Slice>)
    ensures |r| == |keys|
    ensures forall i :: 0 <= i < |keys| ==> r[i] == Slice(keys[i], KeySum(rows, key, amount, keys[i]))
  {
    if keys == [] then []
    else
      var k := keys[|keys| - 1];
      SlicesFor(rows, key, amount, keys[..|keys| - 1]) + [Slice(k, KeySum(rows, key, amount, k))]
  }

  lemma {:induction false} SlicesForSum<T>(rows: seq<T>, key: T -> string, amount: T -> int, keys: seq<string>)
    ensures Sum(SlicesFor(rows, key, amount, keys), ValueOf) == SumOfKeySums(rows, key, amount, keys)
  {
    if keys != [] {
      var init := keys[..|keys| - 1];
      SlicesForSum(rows, key, amount, init);
      assert SlicesFor(rows, key, amount, keys)[..|keys| - 1] == SlicesFor(rows, key, amount, init);
    }
  }

  /** The grouping as a value: one slice per key of `rows`. */
  function Grouped<T>(rows: seq<T>, key: T -> string, amount: T -> int): seq<Slice>
  {
    SlicesFor(rows, key, amount, Keys(rows, key))
  }

  /** The keys are distinct and are exactly the keys the rows carry. */
  lemma {:induction false} KeysSpec<T>(rows: seq<T>, key: T -> string)
    ensures NoDuplicates(Keys(rows, key))
    ensures forall c :: c in Keys(rows, key) <==> exists i :: 0 <= i < |rows| && key(rows[i]) == c
  {
    var ks := MapSeq(rows, key);
    DedupSpec(ks);
    forall c
      ensures c in ks <==> exists i :: 0 <= i < |rows| && key(rows[i]) == c
    {
      if c in ks {
        var i :| 0 <= i < |ks| && ks[i] == c;
        assert key(rows[i]) == c;
      }
      if exists i :: 0 <= i < |rows| && key(rows[i]) == c {
        var i :| 0 <= i < |rows| && key(rows[i]) == c;
        assert ks[i] == c;
      }
    }
  }

  /** A further row's key joins the keys at the end, unless it is already there. */
  lemma {:induction false} KeysSnoc<T>(rows: seq<T>, r: T, key: T -> string)
    ensures Keys(rows + [r], key) == if key(r) in Keys(rows, key) then Keys(rows, key) else Keys(rows, key) + [key(r)]
  {
    assert MapSeq(rows + [r], key) == MapSeq(rows, key) + [key(r)];
    DedupSnoc(MapSeq(rows, key), key(r));
  }

  /** The group totals add up to the sum of all the amounts. */
  lemma {:induction false} GroupedSum<T>(rows: seq<T>, key: T -> string, amount: T -> int)
    ensures Sum(Grouped(rows, key, amount), ValueOf) == Sum(rows, amount)
  {
    var keys := Keys(rows, key);
    KeysSpec(rows, key);
    forall i | 0 <= i < |rows|
      ensures key(rows[i]) in keys
    {
    }
    KeySumPartition(rows, key, amount, keys);
    SlicesForSum(rows, key, amount, keys);
  }

  /**
   * `slices` names each key of `rows` once and no other, values each at the
   * sum of that key's amounts, and adds up to the sum of all the amounts:
   * no group is dropped or counted twice.
   */
  ghost predicate Summarizes<T>(slices: seq<Slice>, rows: seq<T>, key: T -> string, amount: T -> int)
  {
    && NoDuplicates(MapSeq(slices, NameOf))
    && (forall c :: c in MapSeq(slices, NameOf) <==> exists i :: 0 <= i < |rows| && key(rows[i]) == c)
    && (forall s :: s in slices ==> s.value == KeySum(rows, key, amount, s.name))
    && Sum(slices, ValueOf) == Sum(rows, amount)
  }

  /** The grouping lists the keys in first-occurrence order and summarizes the rows. */
  lemma {:induction false} GroupedSpec<T>(rows: seq<T>, key: T -> string, amount: T -> int)
    ensures MapSeq(Grouped(rows, key, amount), NameOf) == Keys(rows, key)
    ensures Summarizes(Grouped(rows, key, amount), rows, key, amount)
  {
    assert MapSeq(Grouped(rows, key, amount), NameOf) == Keys(rows, key);
    KeysSpec(rows, key);
    GroupedSum(rows, key, amount);
  }

  /** A reordering of a summary is still a summary of the same rows. */
  lemma {:induction false} ReorderedSummary<T>(rows: seq<T>, key: T -> string, amount: T -> int, a: seq<Slice>, b: seq<Slice>)
    requires Summarizes(a, rows, key, amount) && multiset(b) == multiset(a)
    ensures Summarizes(b, rows, key, amount)
  {
    assert NoDuplicates(MapSeq(b, NameOf)) by {
      MapSeqNoDuplicatesPermutation(a, b, NameOf);
    }
    assert forall c :: c in MapSeq(b, NameOf) <==> exists i :: 0 <= i < |rows| && key(rows[i]) == c by {
      MapSeqPermutationMembers(a, b, NameOf);
    }
    assert forall s :: s in b ==> s.value == KeySum(rows, key, amount, s.name) by {
      SortedMembers(b, a);
    }
    assert Sum(b, ValueOf) == Sum(rows, amount) by {
      SumPermutation(b, a, ValueOf);
    }
  }

  /** Nothing to summarize, nothing in the summary. */
  lemma {:induction false} SummaryOfNothing<T>(slices: seq<Slice>, key: T -> string, amount: T -> int)
    requires Summarizes(slices, [], key, amount)
    ensures slices == []
  {
    MapSeqHead(slices, NameOf);
  }

  /**
   * The accumulation loop: for each row, add its amount to its key's running
   * total, creating the total on first sight of the key; then list the
   * totals in the order the keys were first met (`Object.entries`).
   */
  method Group<T>(rows: seq<T>, key: T -> string, amount: T -> int) returns (slices: seq<Slice>)
    ensures slices == Grouped(rows, key, amount)
  {
    var keys, sums := GroupSum(rows, key, amount);
    slices := [];
    var i := 0;
    while i < |keys|
      invariant 0 <= i <= |keys|
      invariant slices == SlicesFor(rows, key, amount, keys[..i])
    {
      slices := slices + [Slice(keys[i], sums[keys[i]])];
      assert keys[..i + 1][..i] == keys[..i];
      i := i + 1;
    }
    assert keys[..i] == keys;
  }

  /** Descending by value: `(a, b) => b.value - a.value`. */
  function ByValueDescending(): (le: (Slice, Slice) -> bool)
    ensures Total(le) && Transitive(le)
    ensures forall a, b :: le(a, b) <==> a.value >= b.value
  {
    (a: Slice, b: Slice) => a.value >= b.value
  }
}
