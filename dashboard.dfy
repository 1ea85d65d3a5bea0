/**
 * The dashboard's figures: total income, total expenses and balance, the
 * savings rate, the spending-by-category pie for the last thirty days
 * (largest first), and the five most recent transactions.
 */
module Dashboard {
  import opened Calendar
  import opened Seqs
  import opened Sorting
  import opened Records
  import opened Grouping
  import opened JsDates

  /** `Math.round`: the nearest integer, halves rounded up. */
  function Round(x: real): (r: int)
    ensures (r as real) - 0.5 <= x < (r as real) + 0.5
  {
    (x + 0.5).Floor
  }

  /** The savings bar: balance as a percentage of income, 0 when there is no income. */
  function SavingsPercent(t: Totals): (p: real)
    ensures t.income <= 0 ==> p == 0.0
    ensures t.income > 0 ==> p == (t.balance as real) * 100.0 / (t.income as real)
  {
    if t.income > 0 then (t.balance as real / t.income as real) * 100.0 else 0.0
  }

  /** The savings-rate figure: the savings percentage rounded to a whole number. */
  function SavingsRate(t: Totals): (r: int)
    ensures t.income <= 0 ==> r == 0
    ensures t.income > 0 ==>
      (r as real) - 0.5 <= (t.balance as real) * 100.0 / (t.income as real) < (r as real) + 0.5
  {
    if t.income > 0 then Round(SavingsPercent(t)) else 0
  }

  /**
   * With income, no negative expenses and no more spent than earned, the
   * rate lies between 0 and 100.
   */
  lemma {:induction false} SavingsRateBounds(t: Totals)
    requires t.balance == t.income - t.expenses
    requires t.income > 0 && 0 <= t.expenses <= t.income
    ensures 0 <= SavingsRate(t) <= 100
  {
    var q := t.balance as real / t.income as real;
    assert 0.0 <= q <= 1.0;
  }

  /** Thirty days before `now`, at the same time of day. */
  function ThirtyDaysBefore(now: Moment): (t: Moment)
    requires ValidMoment(now)
    ensures ValidMoment(t) && t.msOfDay == now.msOfDay
    ensures TimeOf(t) == TimeOf(now) - 30 * MsPerDay
  {
    NormalizeDay(now.date.year, now.date.month, now.date.day - 30);
    Moment(Normalize(now.date.year, now.date.month, now.date.day - 30), now.msOfDay)
  }

  /** `thirtyDaysAgo`: a fresh date set to `getDate() - 30`. */
  method ThirtyDaysAgo(now: Moment) returns (t: Moment)
    requires ValidMoment(now)
    ensures t == ThirtyDaysBefore(now)
    ensures TimeOf(t) == TimeOf(now) - 30 * MsPerDay
  {
    var d := new JsDate.At(now);
    d.SetDate(d.GetDate() - 30);
    t := d.Value();
  }

  /** An expense dated at or after the cutoff instant. */
  function IsRecentExpense(cutoff: Moment): (p: Transaction -> bool)
    requires ValidMoment(cutoff)
    ensures forall t :: p(t) <==> t.kind == "expense" && DateTime(t) >= TimeOf(cutoff)
  {
    (t: Transaction) => t.kind == "expense" && DateTime(t) >= TimeOf(cutoff)
  }

  /** The expenses the pie is drawn from. */
  function RecentExpenses(txs: seq<Transaction>, now: Moment): seq<Transaction>
    requires ValidMoment(now)
  {
    Filter(txs, IsRecentExpense(ThirtyDaysBefore(now)))
  }

  /**
   * An expense dated strictly within the last thirty calendar days is in
   * the pie; one dated exactly thirty days back is in it only when `now`
   * is exactly midnight, because the cutoff keeps the time of day.
   */
  lemma {:induction false} RecentExpenseDays(t: Transaction, now: Moment)
    requires ValidMoment(now)
    ensures t.kind == "expense" && DayOf(t.date) > DayOf(now.date) - 30 ==>
      IsRecentExpense(ThirtyDaysBefore(now))(t)
    ensures IsRecentExpense(ThirtyDaysBefore(now))(t) ==>
      t.kind == "expense" && DayOf(t.date) >= DayOf(now.date) - 30
    ensures t.kind == "expense" && DayOf(t.date) == DayOf(now.date) - 30 ==>
      (IsRecentExpense(ThirtyDaysBefore(now))(t) <==> now.msOfDay == 0)
  {
  }

  /**
   * `getExpenseData`: the recent expenses grouped by category, sorted by
   * value, largest first. Each category of a recent expense appears once,
   * valued at the sum of its recent expense amounts, and the values add up
   * to the total of the recent expenses.
   */
  method GetExpenseData(txs: seq<Transaction>, now: Moment) returns (pie: seq<Slice>)
    requires ValidMoment(now)
    ensures SortedBy(pie, ByValueDescending())
    ensures Summarizes(pie, RecentExpenses(txs, now), CategoryOf, AmountOf)
  {
    var cutoff := ThirtyDaysAgo(now);
    var recent := Filter(txs, IsRecentExpense(cutoff));
    var grouped := Group(recent, CategoryOf, AmountOf);
    pie := Sort(grouped, ByValueDescending());
    GroupedSpec(recent, CategoryOf, AmountOf);
    ReorderedSummary(recent, CategoryOf, AmountOf, grouped, pie);
  }

  /** "Recent Activity": the first five transactions in list order, or all of them when fewer. */
  function RecentActivity(txs: seq<Transaction>): (r: seq<Transaction>)
    ensures |r| == if |txs| < 5 then |txs| else 5
    ensures forall i :: 0 <= i < |r| ==> r[i] == txs[i]
  {
    if |txs| < 5 then txs else txs[..5]
  }
}
