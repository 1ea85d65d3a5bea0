/**
 * The budget page: how much of each budget this calendar month's expenses
 * have used, the status badge that follows from it, the pie of budgets
 * with their remaining amounts, and the warning shown near or over the
 * limit.
 */
module BudgetManager {
  import opened Calendar
  import opened Seqs
  import opened Records

  /** An expense in the budget's category dated in the same month and year as `now`. */
  function CountsAgainst(b: Budget, now: Moment): (p: Transaction -> bool)
    ensures forall t :: p(t) <==>
      t.kind == "expense" && t.category == b.category &&
      t.date.month == now.date.month && t.date.year == now.date.year
  {
    (t: Transaction) => t.kind == "expense" && t.category == b.category &&
      t.date.month == now.date.month && t.date.year == now.date.year
  }

  /** `spent`: the sum of the amounts of the transactions that count against the budget. */
  function Spent(b: Budget, txs: seq<Transaction>, now: Moment): Cents
  {
    Sum(Filter(txs, CountsAgainst(b, now)), AmountOf)
  }

  /** A further transaction raises `spent` by its amount when it counts against the budget, and otherwise leaves it. */
  lemma {:induction false} SpentSnoc(b: Budget, txs: seq<Transaction>, t: Transaction, now: Moment)
    ensures Spent(b, txs + [t], now) == Spent(b, txs, now) + (if CountsAgainst(b, now)(t) then t.amount else 0)
  {
    var p := CountsAgainst(b, now);
    FilterSnoc(txs, t, p);
    SumAppend(Filter(txs, p), if p(t) then [t] else [], AmountOf);
    assert Sum([t], AmountOf) == Sum([], AmountOf) + t.amount;
  }

  lemma {:induction false} SpentEmpty(b: Budget, now: Moment)
    ensures Spent(b, [], now) == 0
  {
  }

  /**
   * The percentage used, `spent / amount * 100`, capped at 100. The budget
   * amount must be positive: the division is not guarded.
   */
  function Percentage(spent: Cents, amount: Cents): (p: real)
    requires amount > 0
    ensures p <= 100.0
    ensures p == 100.0 <==> spent >= amount
    ensures p < 100.0 ==> p * (amount as real) == (spent as real) * 100.0
  {
    var raw := (spent as real / amount as real) * 100.0;
    assert raw * (amount as real) == (spent as real) * 100.0;
    if raw < 100.0 then raw else 100.0
  }

  datatype BudgetStatus = OverBudget | Alert | Warning | OnTrack

  /** The badge text of a status. */
  function StatusText(s: BudgetStatus): string
  {
    match s
    case OverBudget => "Over Budget"
    case Alert => "Alert"
    case Warning => "Warning"
    case OnTrack => "On Track"
  }

  /** The badge style of a status. */
  function StatusVariant(s: BudgetStatus): string
  {
    match s
    case OverBudget => "destructive"
    case Alert => "destructive"
    case Warning => "secondary"
    case OnTrack => "default"
  }

  /** `getBudgetStatus`: the thresholds are tried from the highest down. */
  function GetBudgetStatus(percentage: real): BudgetStatus
  {
    if percentage >= 100.0 then OverBudget
    else if percentage >= 80.0 then Alert
    else if percentage >= 60.0 then Warning
    else OnTrack
  }

  /**
   * The status of a budget in whole-number terms: over budget exactly when
   * the spending reaches the amount, an alert from 80% up to it, a warning
   * from 60% up to 80%, and on track below 60%.
   */
  lemma {:induction false} BudgetStatusBySpending(spent: Cents, amount: Cents)
    requires amount > 0
    ensures GetBudgetStatus(Percentage(spent, amount)) == OverBudget <==> spent >= amount
    ensures GetBudgetStatus(Percentage(spent, amount)) == Alert <==> 80 * amount <= 100 * spent < 100 * amount
    ensures GetBudgetStatus(Percentage(spent, amount)) == Warning <==> 60 * amount <= 100 * spent < 80 * amount
    ensures GetBudgetStatus(Percentage(spent, amount)) == OnTrack <==> 100 * spent < 60 * amount
  {
    PercentageThreshold(spent, amount, 80);
    PercentageThreshold(spent, amount, 60);
  }

  /** Below the cap, the percentage reaches `k` exactly when `100 * spent >= k * amount`. */
  lemma {:induction false} PercentageThreshold(spent: Cents, amount: Cents, k: int)
    requires amount > 0 && 0 < k < 100
    ensures Percentage(spent, amount) >= k as real <==> k * amount <= 100 * spent
  {
    var p, a, kr := Percentage(spent, amount), amount as real, k as real;
    if spent >= amount {
      assert p == 100.0;
      assert (100 - k) * amount > 0;
      assert 100 * amount <= 100 * spent;
    } else {
      var lhs, rhs := (100 * spent) as real, (k * amount) as real;
      assert lhs == p * a by {
        assert p < 100.0 && p * a == (spent as real) * 100.0;
      }
      ScaleByPositive(p, a, kr, lhs, rhs);
    }
  }

  /** Multiplying both sides by a positive number keeps a comparison. */
  lemma {:induction false} ScaleByPositive(p: real, a: real, k: real, pa: real, ka: real)
    requires a > 0.0 && pa == p * a && ka == k * a
    ensures p >= k <==> pa >= ka
  {
    if p >= k {
      assert pa - ka == (p - k) * a;
    } else {
      assert ka - pa == (k - p) * a;
    }
  }

  /** The warning under a budget. */
  datatype BudgetAlert = NoAlert | Approaching | Exceeded(overrun: Cents)

  /** The message text of a warning. */
  function AlertMessage(a: BudgetAlert): string
  {
    match a
    case NoAlert => ""
    case Approaching => "You're approaching your budget limit"
    case Exceeded(_) => "You've exceeded your budget by KSh "
  }

  /**
   * The warning shows from 80% on; at 100% (spending at or over the amount)
   * it reports the overrun, `spent - amount`, which is never negative.
   */
  function BudgetWarning(spent: Cents, amount: Cents): (r: BudgetAlert)
    requires amount > 0
    ensures r != NoAlert <==> Percentage(spent, amount) >= 80.0
    ensures r.Exceeded? <==> spent >= amount
    ensures r.Exceeded? ==> r.overrun == spent - amount && r.overrun >= 0
  {
    var p := Percentage(spent, amount);
    if p >= 80.0 then
      if p >= 100.0 then Exceeded(spent - amount) else Approaching
    else NoAlert
  }

  /** A budget's card: what it has used, its status, what is left (negative once over) and its warning. */
  datatype BudgetCard = BudgetCard(spent: Cents, percentage: real, status: BudgetStatus, remaining: Cents, alert: BudgetAlert)

  function Card(b: Budget, txs: seq<Transaction>, now: Moment): (c: BudgetCard)
    requires b.amount > 0
    ensures c.spent == Spent(b, txs, now)
    ensures c.spent + c.remaining == b.amount
    ensures c.percentage == Percentage(c.spent, b.amount) && c.status == GetBudgetStatus(c.percentage)
    ensures c.status == OverBudget <==> c.spent >= b.amount
    ensures c.status == Alert <==> 80 * b.amount <= 100 * c.spent < 100 * b.amount
    ensures c.status == Warning <==> 60 * b.amount <= 100 * c.spent < 80 * b.amount
    ensures c.status == OnTrack <==> 100 * c.spent < 60 * b.amount
    ensures c.alert == BudgetWarning(c.spent, b.amount)
    ensures c.alert != NoAlert <==> c.status == OverBudget || c.status == Alert
    ensures c.alert.Exceeded? ==> c.alert.overrun == -c.remaining
  {
    var spent := Spent(b, txs, now);
    var p := Percentage(spent, b.amount);
    BudgetStatusBySpending(spent, b.amount);
    BudgetCard(spent, p, GetBudgetStatus(p), b.amount - spent, BudgetWarning(spent, b.amount))
  }

  /** An entry of the budget pie chart. */
  datatype PieEntry = PieEntry(name: string, value: Cents, spent: Cents, remaining: Cents)

  function PieEntryOf(b: Budget, txs: seq<Transaction>, now: Moment): (e: PieEntry)
    ensures e.name == b.category && e.value == b.amount && e.spent == Spent(b, txs, now)
    ensures e.remaining >= 0
    ensures e.remaining == if e.spent <= b.amount then b.amount - e.spent else 0
  {
    var spent := Spent(b, txs, now);
    PieEntry(b.category, b.amount, spent, if 0 < b.amount - spent then b.amount - spent else 0)
  }

  /** `pieData`: one entry per budget, in budget order. */
  function PieData(budgets: seq<Budget>, txs: seq<Transaction>, now: Moment): (r: seq<PieEntry>)
    ensures |r| == |budgets|
    ensures forall i :: 0 <= i < |budgets| ==>
      r[i].name == budgets[i].category && r[i].value == budgets[i].amount &&
      r[i].spent == Spent(budgets[i], txs, now) && r[i].remaining >= 0 &&
      r[i].remaining == if r[i].spent <= budgets[i].amount then budgets[i].amount - r[i].spent else 0
  {
    seq(|budgets|, i requires 0 <= i < |budgets| => PieEntryOf(budgets[i], txs, now))
  }
}
