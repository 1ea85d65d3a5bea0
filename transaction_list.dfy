/**
 * The transaction list: the search box and the type and category filters
 * that pick which rows are shown, the category choices offered by the
 * filter, the count badge and the empty-state message.
 */
module TransactionList {
  import opened Text
  import opened Seqs
  import opened Records
  import opened Grouping

  /** The three filter controls: the search text, the type filter and the category filter. */
  datatype Filters = Filters(search: string, kind: string, category: string)

  /** What the page starts with: no search text, both filters on "all". */
  const Unfiltered: Filters := Filters("", "all", "all")

  /** The search text, lower-cased, occurs in the lower-cased description or category. */
  predicate MatchesSearch(t: Transaction, term: string)
  {
    Includes(ToLower(t.description), ToLower(term)) || Includes(ToLower(t.category), ToLower(term))
  }

  /** The type filter is "all" or names the row's type exactly. */
  predicate MatchesType(t: Transaction, kind: string)
  {
    kind == "all" || t.kind == kind
  }

  /** The category filter is "all" or names the row's category exactly. */
  predicate MatchesCategory(t: Transaction, category: string)
  {
    category == "all" || t.category == category
  }

  /** The predicate handed to `filter`: all three conditions at once. */
  function Matches(f: Filters): (p: Transaction -> bool)
    ensures forall t :: p(t) <==> MatchesSearch(t, f.search) && MatchesType(t, f.kind) && MatchesCategory(t, f.category)
  {
    (t: Transaction) => MatchesSearch(t, f.search) && MatchesType(t, f.kind) && MatchesCategory(t, f.category)
  }

  /** `filteredTransactions`. */
  function FilteredTransactions(txs: seq<Transaction>, f: Filters): seq<Transaction>
  {
    Filter(txs, Matches(f))
  }

  /**
   * The shown rows keep the list's order and are exactly the listed rows
   * that pass the search and both filters.
   */
  lemma {:induction false} FilteredSpec(txs: seq<Transaction>, f: Filters)
    ensures IsSubsequence(FilteredTransactions(txs, f), txs)
    ensures forall t :: t in FilteredTransactions(txs, f) <==>
      t in txs && MatchesSearch(t, f.search) && MatchesType(t, f.kind) && MatchesCategory(t, f.category)
  {
    FilterIsSubsequence(txs, Matches(f));
    forall t
      ensures t in FilteredTransactions(txs, f) <==> t in txs && Matches(f)(t)
    {
      FilterMembership(txs, Matches(f), t);
    }
  }

  /** With no search text and both filters on "all", every row is shown. */
  lemma {:induction false} UnfilteredKeepsAll(txs: seq<Transaction>)
    ensures FilteredTransactions(txs, Unfiltered) == txs
  {
    assert ToLower("") == "";
    forall i | 0 <= i < |txs|
      ensures Matches(Unfiltered)(txs[i])
    {
      IncludesEmpty(ToLower(txs[i].description));
    }
    FilterAll(txs, Matches(Unfiltered));
  }

  lemma {:induction false} ToLowerIdempotent(s: string)
    ensures ToLower(ToLower(s)) == ToLower(s)
  {
    var l := ToLower(s);
    forall i | 0 <= i < |s|
      ensures ToLower(l)[i] == l[i]
    {
    }
  }

  /** The search does not depend on the case of the search text. */
  lemma {:induction false} SearchIgnoresCase(t: Transaction, term: string)
    ensures MatchesSearch(t, term) <==> MatchesSearch(t, ToLower(term))
  {
    ToLowerIdempotent(term);
  }

  /**
   * The category filter, unlike the search, compares exactly: a row in
   * "Food" is found by searching "FOOD" but not kept by the category
   * filter "food".
   */
  lemma {:induction false} CategoryFilterIsCaseSensitive(t: Transaction)
    requires t.category == "Food"
    ensures MatchesSearch(t, "FOOD") && !MatchesCategory(t, "food")
  {
    assert ToLower("Food") == "food";
    assert ToLower("FOOD") == "food";
    assert OccursAt(ToLower(t.category), ToLower("FOOD"), 0);
  }

  /** `categories`: the distinct categories of the list, in order of first appearance. */
  function Categories(txs: seq<Transaction>): seq<string>
  {
    Keys(txs, CategoryOf)
  }

  /**
   * Each category is offered once, every category of the list is offered
   * and nothing else, in the order the categories first appear.
   */
  lemma {:induction false} CategoriesSpec(txs: seq<Transaction>)
    ensures NoDuplicates(Categories(txs))
    ensures forall c :: c in Categories(txs) <==> exists i :: 0 <= i < |txs| && txs[i].category == c
    ensures var cs, all := Categories(txs), MapSeq(txs, CategoryOf);
      forall i, j :: 0 <= i < j < |cs| ==> cs[i] in all && cs[j] in all && FirstIndex(all, cs[i]) < FirstIndex(all, cs[j])
  {
    KeysSpec(txs, CategoryOf);
    DedupSpec(MapSeq(txs, CategoryOf));
  }

  /** The count badge: the number of shown rows followed by " transactions". */
  function CountBadge(txs: seq<Transaction>, f: Filters): (s: string)
    ensures |s| > 13 && s[|s| - 13..] == " transactions"
    ensures CanonicalDigits(s[..|s| - 13]) && DecimalValue(s[..|s| - 13]) == |FilteredTransactions(txs, f)|
  {
    var n := NatToDecimal(|FilteredTransactions(txs, f)|);
    NatToDecimalValue(|FilteredTransactions(txs, f)|);
    var s := n + " transactions";
    assert s[..|s| - 13] == n;
    s
  }

  /**
   * The empty state: no message while a row is shown; otherwise "No
   * transactions yet" when the list itself is empty, and "No transactions
   * match your filters" when the filters hid every row.
   */
  function EmptyState(txs: seq<Transaction>, f: Filters): (r: Option<string>)
    ensures r.None? <==> FilteredTransactions(txs, f) != []
    ensures r == Some("No transactions yet") <==> txs == []
    ensures r == Some("No transactions match your filters") <==> txs != [] && FilteredTransactions(txs, f) == []
  {
    if FilteredTransactions(txs, f) != [] then None
    else if txs == [] then Some("No transactions yet")
    else Some("No transactions match your filters")
  }
}
