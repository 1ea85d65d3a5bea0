/**
 * The rows the components read: transactions, budgets and savings goals,
 * with the fields of the `transactions`, `budgets` and `goals` tables. Money
 * is held exactly, as a whole number of cents; dates are calendar dates.
 * Also here: the `YYYY-MM-DD` text a date is stored and exported as, and the
 * income/expense totals that the dashboard and the PDF report both compute.
 */
module Records {
  import opened Calendar
  import opened Text
  import opened Seqs

  /** An amount of money in cents (KSh 12.50 is 1250). */
  type Cents = int

  datatype Option<T> = None | Some(value: T)

  /** A row of `transactions`; `kind` is the `type` column ("income", "expense", or any other text). */
  datatype Transaction = Transaction(
    id: string,
    userId: string,
    kind: string,
    category: string,
    description: string,
    amount: Cents,
    date: CivilDate)

  /** A row of `budgets`; `period` is "weekly" or "monthly". */
  datatype Budget = Budget(
    id: string,
    userId: string,
    category: string,
    amount: Cents,
    period: string,
    startDate: CivilDate,
    endDate: CivilDate)

  /** A row of `goals`. */
  datatype Goal = Goal(
    id: string,
    userId: string,
    name: string,
    description: Option<string>,
    category: Option<string>,
    targetAmount: Cents,
    currentAmount: Cents,
    targetDate: Option<CivilDate>,
    isCompleted: bool)

  function AmountOf(t: Transaction): Cents
  {
    t.amount
  }

  function CategoryOf(t: Transaction): string
  {
    t.category
  }

  /** `new Date(t.date)`: midnight of the stored date, in milliseconds. */
  function DateTime(t: Transaction): int
  {
    TimeOf(Moment(t.date, 0))
  }

  /** The year as `toISOString` writes it: four digits, or a sign and six digits outside 0..9999. */
  function IsoYear(y: int): (s: string)
    ensures 0 <= y <= 9999 ==> |s| == 4 && AllDigits(s) && DecimalValue(s) == y
  {
    if 0 <= y <= 9999 then
      PadDigitsValue(y, 4);
      PadDigits(y, 4)
    else if y < 0 then "-" + PadDigits(-y, 6)
    else "+" + PadDigits(y, 6)
  }

  /**
   * `YYYY-MM-DD`: the text a date column holds and the date part of
   * `toISOString()`. Each part reads back as the number it was made from.
   */
  function IsoDate(d: Date): (s: string)
    requires ValidDate(d)
    ensures 0 <= d.year <= 9999 ==>
      |s| == 10 && s[4] == '-' && s[7] == '-' &&
      AllDigits(s[..4]) && DecimalValue(s[..4]) == d.year &&
      AllDigits(s[5..7]) && DecimalValue(s[5..7]) == d.month &&
      AllDigits(s[8..]) && DecimalValue(s[8..]) == d.day
  {
    var mm, dd := Pad2(d.month), Pad2(d.day);
    DecimalValue2(mm);
    DecimalValue2(dd);
    var s := IsoYear(d.year) + "-" + mm + "-" + dd;
    if 0 <= d.year <= 9999 then
      assert s[..4] == IsoYear(d.year) && s[5..7] == mm && s[8..] == dd;
      s
    else s
  }

  /** The date text names one date: distinct dates of four-digit years have distinct texts. */
  lemma {:induction false} IsoDateInjective(a: Date, b: Date)
    requires ValidDate(a) && ValidDate(b)
    requires 0 <= a.year <= 9999 && 0 <= b.year <= 9999
    requires IsoDate(a) == IsoDate(b)
    ensures a == b
  {
    var s := IsoDate(a);
    assert DecimalValue(s[..4]) == a.year && DecimalValue(s[..4]) == b.year;
  }

  function KindOf(t: Transaction): string
  {
    t.kind
  }

  /** The test `t => t.type === kind`. */
  function KindIs(kind: string): (p: Transaction -> bool)
    ensures forall t :: p(t) <==> t.kind == kind
  {
    (t: Transaction) => t.kind == kind
  }

  /** The sum of the amounts of the transactions whose type is exactly `kind`. */
  function TypeTotal(txs: seq<Transaction>, kind: string): Cents
  {
    Sum(Filter(txs, KindIs(kind)), AmountOf)
  }

  /** A further transaction moves the total of its own type by its amount and no other total. */
  lemma {:induction false} TypeTotalSnoc(txs: seq<Transaction>, t: Transaction, kind: string)
    ensures TypeTotal(txs + [t], kind) == TypeTotal(txs, kind) + (if t.kind == kind then t.amount else 0)
  {
    var p := KindIs(kind);
    FilterSnoc(txs, t, p);
    SumAppend(Filter(txs, p), if p(t) then [t] else [], AmountOf);
    assert Sum([t], AmountOf) == Sum([], AmountOf) + t.amount;
  }

  /** The per-type total is the type's group in a grouping of the rows by type. */
  lemma {:induction false} TypeTotalIsKeySum(txs: seq<Transaction>, kind: string)
    ensures TypeTotal(txs, kind) == KeySum(txs, KindOf, AmountOf, kind)
  {
    FilterSumIsKeySum(txs, KindIs(kind), KindOf, AmountOf, kind);
  }

  datatype Totals = Totals(income: Cents, expenses: Cents, balance: Cents)

  /** Income, expenses and their difference over a list of transactions. */
  function CalculateTotals(txs: seq<Transaction>): (r: Totals)
    ensures r.balance == r.income - r.expenses
  {
    var income := TypeTotal(txs, "income");
    var expenses := TypeTotal(txs, "expense");
    Totals(income, expenses, income - expenses)
  }

  /** No transactions, no money: every total is zero. */
  lemma {:induction false} TotalsEmpty()
    ensures CalculateTotals([]) == Totals(0, 0, 0)
  {
  }

  /**
   * Adding a transaction adds its amount to income when its type is
   * "income", to expenses when it is "expense", and to neither otherwise.
   */
  lemma {:induction false} TotalsSnoc(txs: seq<Transaction>, t: Transaction)
    ensures var before, after := CalculateTotals(txs), CalculateTotals(txs + [t]);
      after.income == before.income + (if t.kind == "income" then t.amount else 0) &&
      after.expenses == before.expenses + (if t.kind == "expense" then t.amount else 0) &&
      (t.kind != "income" && t.kind != "expense" ==> after == before)
  {
    TypeTotalSnoc(txs, t, "income");
    TypeTotalSnoc(txs, t, "expense");
  }
}
