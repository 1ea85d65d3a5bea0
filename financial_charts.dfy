/**
 * The analytics charts: all-time spending by category (with its legend
 * sorted largest first), income and expenses per calendar month for the
 * last six months that have transactions, and spending per week for the
 * last eight weeks that have expenses. Months and weeks are keyed by text
 * (`2024-03`, `2024-W09`) and the last buckets are picked by sorting the
 * keys as text.
 */
module FinancialCharts {
  import opened Calendar
  import opened Text
  import opened Seqs
  import opened Sorting
  import opened Records
  import opened Grouping

  /** The expense transactions, the rows the category pie and the weekly bars are drawn from. */
  function Expenses(txs: seq<Transaction>): seq<Transaction>
  {
    Filter(txs, KindIs("expense"))
  }

  /**
   * `expensesByCategory` / `pieData`: every expense category once, in the
   * order first met, valued at the sum of its expense amounts; the values
   * add up to the total expense amount, so the categories partition it.
   * The object is taken as an insertion-ordered map, which it is for names
   * that are neither array indices nor inherited from `Object.prototype`.
   */
  method ExpensesByCategory(txs: seq<Transaction>) returns (pie: seq<Slice>)
    ensures MapSeq(pie, NameOf) == Keys(Expenses(txs), CategoryOf)
    ensures Summarizes(pie, Expenses(txs), CategoryOf, AmountOf)
    ensures Sum(pie, ValueOf) == TypeTotal(txs, "expense")
  {
    pie := Group(Expenses(txs), CategoryOf, AmountOf);
    GroupedSpec(Expenses(txs), CategoryOf, AmountOf);
  }

  /**
   * The category legend: `pieData.sort((a, b) => b.value - a.value)` sorts
   * the pie's own array in place, largest first, and the result still
   * summarizes the same rows.
   */
  method SortLegend(pie: array<Slice>, rows: seq<Transaction>)
    requires Summarizes(pie[..], rows, CategoryOf, AmountOf)
    modifies pie
    ensures SortedBy(pie[..], ByValueDescending())
    ensures multiset(pie[..]) == multiset(old(pie[..]))
    ensures Summarizes(pie[..], rows, CategoryOf, AmountOf)
  {
    ghost var before := pie[..];
    InsertionSort(pie, ByValueDescending());
    ReorderedSummary(rows, CategoryOf, AmountOf, before, pie[..]);
  }

  /** Ascending by key: `(a, b) => key(a).localeCompare(key(b))`. */
  function ByKey<T(!new)>(key: T -> string): (le: (T, T) -> bool)
    ensures forall a, b :: le(a, b) <==> LexLessEq(key(a), key(b))
    ensures Total(le) && Transitive(le)
  {
    LexLessEqOrder();
    (a: T, b: T) => LexLessEq(key(a), key(b))
  }

  /**
   * `.sort(by key).slice(-n)` over entries with distinct keys: the last `n`
   * entries (all of them when fewer, and when `n` is 0, since `slice(-0)`
   * is `slice(0)`) in ascending key order. Every entry left out has a key
   * below every key kept.
   */
  method LastByKey<T(!new)>(s: seq<T>, key: T -> string, n: nat) returns (r: seq<T>)
    requires NoDuplicates(MapSeq(s, key))
    ensures |r| == if n == 0 || |s| < n then |s| else n
    ensures forall i, j :: 0 <= i < j < |r| ==> LexLess(key(r[i]), key(r[j]))
    ensures forall x :: x in r ==> x in s
    ensures forall k, y :: k in MapSeq(s, key) && k !in MapSeq(r, key) && y in r ==> LexLess(k, key(y))
  {
    var le := ByKey(key);
    var sorted := Sort(s, le);
    MapSeqNoDuplicatesPermutation(s, sorted, key);
    SortedMembers(sorted, s);
    MapSeqPermutationMembers(s, sorted, key);
    var ks := MapSeq(sorted, key);
    assert strict: forall i, j :: 0 <= i < j < |sorted| ==> LexLess(key(sorted[i]), key(sorted[j])) by {
      forall i, j | 0 <= i < j < |sorted|
        ensures LexLess(key(sorted[i]), key(sorted[j]))
      {
        assert le(sorted[i], sorted[j]);
        assert ks[i] != ks[j];
      }
    }
    var start := if n == 0 || |sorted| < n then 0 else |sorted| - n;
    r := sorted[start..];
    DroppedBelowKept(sorted, key, start);
  }

  /** In a sequence strictly ascending by key, every key dropped from the front is below every key kept. */
  lemma {:induction false} DroppedBelowKept<T>(sorted: seq<T>, key: T -> string, start: int)
    requires 0 <= start <= |sorted|
    requires forall i, j :: 0 <= i < j < |sorted| ==> LexLess(key(sorted[i]), key(sorted[j]))
    ensures forall k, y :: k in MapSeq(sorted, key) && k !in MapSeq(sorted[start..], key) && y in sorted[start..] ==>
      LexLess(k, key(y))
  {
    var ks, r := MapSeq(sorted, key), sorted[start..];
    forall k, y | k in ks && k !in MapSeq(r, key) && y in r
      ensures LexLess(k, key(y))
    {
      var p :| 0 <= p < |sorted| && ks[p] == k;
      assert p < start by {
        forall q | start <= q < |sorted|
          ensures ks[q] != k
        {
          assert MapSeq(r, key)[q - start] == ks[q];
        }
      }
      var q :| 0 <= q < |r| && r[q] == y;
      assert sorted[start + q] == y;
    }
  }

  // ---- Months ----

  /** `${getFullYear()}-${(getMonth() + 1).toString().padStart(2, '0')}`. */
  function MonthKey(d: Date): string
    requires 1 <= d.month <= 12
  {
    IntToDecimal(d.year) + "-" + Pad2(d.month)
  }

  /** For a four-digit year, the key is the year's four digits, a dash and the month's two digits. */
  lemma {:induction false} MonthKeyShape(d: Date)
    requires 1 <= d.month <= 12 && 1000 <= d.year <= 9999
    ensures var k := MonthKey(d);
      |k| == 7 && k[4] == '-' &&
      AllDigits(k[..4]) && DecimalValue(k[..4]) == d.year &&
      AllDigits(k[5..]) && DecimalValue(k[5..]) == d.month
  {
    var k := MonthKey(d);
    assert Pow10(3) == 1000 && Pow10(4) == 10000;
    NatToDecimalWidth(d.year, 4);
    NatToDecimalValue(d.year);
    DecimalValue2(Pad2(d.month));
    assert k[..4] == NatToDecimal(d.year) && k[5..] == Pad2(d.month);
  }

  /**
   * For four-digit years, month keys sort as the months do, and two dates
   * share a key exactly when they fall in the same month of the same year.
   */
  lemma {:induction false} MonthKeyOrder(a: Date, b: Date)
    requires ValidDate(a) && ValidDate(b)
    requires 1000 <= a.year <= 9999 && 1000 <= b.year <= 9999
    ensures LexLess(MonthKey(a), MonthKey(b)) <==> a.year < b.year || (a.year == b.year && a.month < b.month)
    ensures MonthKey(a) == MonthKey(b) <==> a.year == b.year && a.month == b.month
  {
    DatedKeyOrder(a.year, a.month, b.year, b.month, "-");
  }

  function MonthKeyOf(t: Transaction): string
  {
    MonthKey(t.date)
  }

  /** What a row adds to its month's income: its amount when its type is "income". */
  function IncomeShare(t: Transaction): Cents
  {
    if t.kind == "income" then t.amount else 0
  }

  /** What a row adds to its month's expenses: its amount for every type other than "income". */
  function ExpenseShare(t: Transaction): Cents
  {
    if t.kind == "income" then 0 else t.amount
  }

  /** A month bucket of `monthlyData`. */
  datatype MonthBucket = MonthBucket(month: string, income: Cents, expenses: Cents)

  function BucketMonth(b: MonthBucket): string
  {
    b.month
  }

  function BucketIncome(b: MonthBucket): Cents
  {
    b.income
  }

  function BucketExpenses(b: MonthBucket): Cents
  {
    b.expenses
  }

  /** The bucket of month key `k` over `rows`. */
  function BucketOf(rows: seq<Transaction>, k: string): MonthBucket
  {
    BucketBy(rows, MonthKeyOf, k)
  }

  /** The bucket of key `k` over `rows`, for any way of keying the rows. */
  function BucketBy(rows: seq<Transaction>, key: Transaction -> string, k: string): MonthBucket
  {
    MonthBucket(k, KeySum(rows, key, IncomeShare, k), KeySum(rows, key, ExpenseShare, k))
  }

  /** The buckets of the listed keys, in the order listed. */
  function BucketsFor(rows: seq<Transaction>, key: Transaction -> string, keys: seq<string>): (r: seq<MonthBucket>)
    ensures |r| == |keys|
    ensures forall i :: 0 <= i < |keys| ==> r[i] == BucketBy(rows, key, keys[i])
  {
    if keys == [] then []
    else BucketsFor(rows, key, keys[..|keys| - 1]) + [BucketBy(rows, key, keys[|keys| - 1])]
  }

  /** `Object.values(monthlyData)`: one bucket per month key, in the order the months are first met. */
  function MonthlyBuckets(txs: seq<Transaction>): seq<MonthBucket>
  {
    BucketsFor(txs, MonthKeyOf, Keys(txs, MonthKeyOf))
  }

  /**
   * The `monthlyData` reduce: each row's month bucket is created at zero on
   * first sight; an "income" row adds to its income, any other row to its
   * expenses. Then the buckets are listed in insertion order.
   */
  method MonthlyData(txs: seq<Transaction>) returns (buckets: seq<MonthBucket>)
    ensures buckets == MonthlyBuckets(txs)
  {
    buckets := ReduceBuckets(txs, MonthKeyOf);
  }

  /** The reduce, with the month key computed by `key`. */
  method ReduceBuckets(txs: seq<Transaction>, key: Transaction -> string) returns (buckets: seq<MonthBucket>)
    ensures buckets == BucketsFor(txs, key, Keys(txs, key))
  {
    var keys: seq<string> := [];
    var acc: map<string, MonthBucket> := map[];
    var i := 0;
    while i < |txs|
      invariant 0 <= i <= |txs|
      invariant MonthlyState(txs[..i], key, keys, acc)
    {
      var t := txs[i];
      var k := key(t);
      ghost var (keys0, acc0) := (keys, acc);
      var bucket: MonthBucket;
      if k in acc {
        bucket := acc[k];
      } else {
        bucket := MonthBucket(k, 0, 0);
        keys := keys + [k];
      }
      if t.kind == "income" {
        bucket := bucket.(income := bucket.income + t.amount);
      } else {
        bucket := bucket.(expenses := bucket.expenses + t.amount);
      }
      assert keys == (if k in acc0 then keys0 else keys0 + [k]);
      assert bucket == WithShares(if k in acc0 then acc0[k] else MonthBucket(k, 0, 0), t);
      acc := acc[k := bucket];
      MonthlyStep(txs, i, key, keys0, acc0, keys, acc);
      i := i + 1;
    }
    assert txs[..i] == txs;
    buckets := ListBuckets(txs, key, keys, acc);
  }

  /** The reduce's state after `rows`: the month keys met so far, each with its bucket over `rows`. */
  ghost predicate MonthlyState(rows: seq<Transaction>, key: Transaction -> string, keys: seq<string>, acc: map<string, MonthBucket>)
  {
    && keys == Keys(rows, key)
    && (forall k :: k in acc <==> k in keys)
    && (forall k :: k in acc ==> acc[k] == BucketBy(rows, key, k))
  }

  /** A bucket with a row's income and expense shares added. */
  function WithShares(b: MonthBucket, t: Transaction): MonthBucket
  {
    MonthBucket(b.month, b.income + IncomeShare(t), b.expenses + ExpenseShare(t))
  }

  /**
   * One more row: its month key joins the keys on first sight, and its
   * month's bucket, zero when new, takes its income and expense shares;
   * other buckets stay.
   */
  lemma {:induction false} MonthlyStep(txs: seq<Transaction>, i: int, key: Transaction -> string,
                                      keys: seq<string>, acc: map<string, MonthBucket>,
                                      keys': seq<string>, acc': map<string, MonthBucket>)
    requires 0 <= i < |txs| && MonthlyState(txs[..i], key, keys, acc)
    requires var k := key(txs[i]);
      && keys' == (if k in acc then keys else keys + [k])
      && acc' == acc[k := WithShares(if k in acc then acc[k] else MonthBucket(k, 0, 0), txs[i])]
    ensures MonthlyState(txs[..i + 1], key, keys', acc')
  {
    var rows, t := txs[..i], txs[i];
    var k := key(t);
    PrefixSnoc(txs, i);
    assert keys' == Keys(txs[..i + 1], key) by {
      KeysSnoc(rows, t, key);
    }
    if k !in acc {
      NewBucket(rows, key, k);
    }
    forall c | c in acc'
      ensures acc'[c] == BucketBy(txs[..i + 1], key, c)
    {
      KeySumSnoc(rows, t, key, IncomeShare, c);
      KeySumSnoc(rows, t, key, ExpenseShare, c);
    }
  }

  /** `Object.values`: the buckets in key insertion order. */
  method ListBuckets(txs: seq<Transaction>, key: Transaction -> string, keys: seq<string>, acc: map<string, MonthBucket>)
    returns (buckets: seq<MonthBucket>)
    requires forall k :: k in keys ==> k in acc && acc[k] == BucketBy(txs, key, k)
    ensures buckets == BucketsFor(txs, key, keys)
  {
    buckets := [];
    var j := 0;
    while j < |keys|
      invariant 0 <= j <= |keys|
      invariant buckets == BucketsFor(txs, key, keys[..j])
    {
      buckets := buckets + [acc[keys[j]]];
      assert keys[..j + 1][..j] == keys[..j];
      j := j + 1;
    }
    assert keys[..j] == keys;
  }

  /** A key no row carries has an empty bucket. */
  lemma {:induction false} NewBucket(rows: seq<Transaction>, key: Transaction -> string, k: string)
    requires k !in Keys(rows, key)
    ensures BucketBy(rows, key, k) == MonthBucket(k, 0, 0)
  {
    DedupSpec(MapSeq(rows, key));
    assert k !in MapSeq(rows, key);
    KeySumAbsent(rows, key, IncomeShare, k);
    KeySumAbsent(rows, key, ExpenseShare, k);
  }

  lemma {:induction false} BucketsForSums(rows: seq<Transaction>, key: Transaction -> string, keys: seq<string>)
    ensures Sum(BucketsFor(rows, key, keys), BucketIncome) == SumOfKeySums(rows, key, IncomeShare, keys)
    ensures Sum(BucketsFor(rows, key, keys), BucketExpenses) == SumOfKeySums(rows, key, ExpenseShare, keys)
  {
    if keys != [] {
      var init := keys[..|keys| - 1];
      BucketsForSums(rows, key, init);
      assert BucketsFor(rows, key, keys)[..|keys| - 1] == BucketsFor(rows, key, init);
    }
  }

  /** The income shares add up to the "income" total. */
  lemma {:induction false} IncomeShareSum(txs: seq<Transaction>)
    ensures Sum(txs, IncomeShare) == TypeTotal(txs, "income")
  {
    if txs != [] {
      var init, last := txs[..|txs| - 1], txs[|txs| - 1];
      IncomeShareSum(init);
      assert init + [last] == txs;
      TypeTotalSnoc(init, last, "income");
    }
  }

  /** A type that is neither "income" nor "expense". */
  function IsOtherKind(): (p: Transaction -> bool)
    ensures forall t :: p(t) <==> t.kind != "income" && t.kind != "expense"
  {
    (t: Transaction) => t.kind != "income" && t.kind != "expense"
  }

  /** The expense shares add up to the "expense" total plus every row of any other non-income type. */
  lemma {:induction false} ExpenseShareSum(txs: seq<Transaction>)
    ensures Sum(txs, ExpenseShare) == TypeTotal(txs, "expense") + Sum(Filter(txs, IsOtherKind()), AmountOf)
  {
    if txs != [] {
      var init, last := txs[..|txs| - 1], txs[|txs| - 1];
      ExpenseShareSum(init);
      assert init + [last] == txs;
      TypeTotalSnoc(init, last, "expense");
      var p := IsOtherKind();
      FilterSnoc(init, last, p);
      SumAppend(Filter(init, p), if p(last) then [last] else [], AmountOf);
      assert Sum([last], AmountOf) == Sum([], AmountOf) + last.amount;
    }
  }

  /**
   * The month buckets: one per month key of the rows and no other, each
   * holding the sums of its month's income and non-income amounts. Over
   * all buckets, the incomes add up to the dashboard's income total, while
   * the expenses add up to the dashboard's expense total PLUS every row whose
   * type is neither "income" nor "expense": the trend counts such rows as
   * spending, the dashboard does not.
   */
  lemma {:induction false} MonthlyBucketsSpec(txs: seq<Transaction>)
    ensures MapSeq(MonthlyBuckets(txs), BucketMonth) == Keys(txs, MonthKeyOf)
    ensures NoDuplicates(Keys(txs, MonthKeyOf))
    ensures forall c :: c in Keys(txs, MonthKeyOf) <==> exists i :: 0 <= i < |txs| && MonthKeyOf(txs[i]) == c
    ensures forall b :: b in MonthlyBuckets(txs) ==> b.month in Keys(txs, MonthKeyOf) && b == BucketOf(txs, b.month)
    ensures Sum(MonthlyBuckets(txs), BucketIncome) == CalculateTotals(txs).income
    ensures Sum(MonthlyBuckets(txs), BucketExpenses)
         == CalculateTotals(txs).expenses + Sum(Filter(txs, IsOtherKind()), AmountOf)
  {
    var keys := Keys(txs, MonthKeyOf);
    var buckets := MonthlyBuckets(txs);
    assert MapSeq(buckets, BucketMonth) == keys;
    forall b | b in buckets
      ensures b.month in keys
    {
      var i :| 0 <= i < |buckets| && buckets[i] == b;
      assert MapSeq(buckets, BucketMonth)[i] == b.month;
    }
    KeysSpec(txs, MonthKeyOf);
    forall i | 0 <= i < |txs|
      ensures MonthKeyOf(txs[i]) in keys
    {
    }
    BucketsForSums(txs, MonthKeyOf, keys);
    KeySumPartition(txs, MonthKeyOf, IncomeShare, keys);
    KeySumPartition(txs, MonthKeyOf, ExpenseShare, keys);
    IncomeShareSum(txs);
    ExpenseShareSum(txs);
  }

  /** A point of `trendData`: a month bucket with its balance. */
  datatype TrendPoint = TrendPoint(month: string, income: Cents, expenses: Cents, balance: Cents)

  function PointMonth(p: TrendPoint): string
  {
    p.month
  }

  /**
   * `trendData`: the month buckets sorted by key, the last six, each with
   * `balance = income - expenses`. The months shown are distinct months of
   * the rows in ascending key order, as many as there are up to six, and
   * every month left out sorts before every month shown.
   */
  method TrendData(txs: seq<Transaction>) returns (trend: seq<TrendPoint>)
    ensures |trend| == if |Keys(txs, MonthKeyOf)| < 6 then |Keys(txs, MonthKeyOf)| else 6
    ensures forall i, j :: 0 <= i < j < |trend| ==> LexLess(trend[i].month, trend[j].month)
    ensures forall p :: p in trend ==>
      && p.month in Keys(txs, MonthKeyOf)
      && p.income == KeySum(txs, MonthKeyOf, IncomeShare, p.month)
      && p.expenses == KeySum(txs, MonthKeyOf, ExpenseShare, p.month)
      && p.balance == p.income - p.expenses
    ensures forall k, p :: k in Keys(txs, MonthKeyOf) && k !in MapSeq(trend, PointMonth) && p in trend ==>
      LexLess(k, p.month)
  {
    var buckets := MonthlyData(txs);
    ghost var months := Keys(txs, MonthKeyOf);
    assert && MapSeq(buckets, BucketMonth) == months && NoDuplicates(months)
           && forall b :: b in buckets ==> b.month in months && b == BucketOf(txs, b.month) by {
      MonthlyBucketsSpec(txs);
    }
    var tail := LastByKey(buckets, BucketMonth, 6);
    trend := MapSeq(tail, PointOf);
    forall p | p in trend
      ensures p.month in months && p.balance == p.income - p.expenses
      ensures p.income == KeySum(txs, MonthKeyOf, IncomeShare, p.month)
      ensures p.expenses == KeySum(txs, MonthKeyOf, ExpenseShare, p.month)
    {
      var i :| 0 <= i < |trend| && trend[i] == p;
      assert tail[i] in tail;
    }
    assert MapSeq(trend, PointMonth) == MapSeq(tail, BucketMonth);
    forall k, p | k in months && k !in MapSeq(trend, PointMonth) && p in trend
      ensures LexLess(k, p.month)
    {
      var i :| 0 <= i < |trend| && trend[i] == p;
      assert tail[i] in tail;
    }
  }

  /** A bucket with its balance. */
  function PointOf(b: MonthBucket): TrendPoint
  {
    TrendPoint(b.month, b.income, b.expenses, b.income - b.expenses)
  }

  // ---- Weeks ----

  /** January 1 of the year as `new Date(year, 0, 1)` builds it. */
  function FirstDayOfYear(year: int): Date
  {
    MakeDate(ConstructorYear(year), 0, 1)
  }

  /**
   * `getWeekKey`'s week number: `ceil((pastDaysOfYear + firstDay.getDay() + 1) / 7)`,
   * where the past days are counted from midnight of January 1 to the
   * date's midnight.
   */
  function WeekNumber(d: Date): int
    requires ValidDate(d)
  {
    var first := FirstDayOfYear(d.year);
    var pastDays := DayOf(d) - DayOf(first);
    CeilDiv(pastDays + WeekDay(DayOf(first)) + 1, 7)
  }

  /** Outside the years 0..99, January 1 is built in the date's own year. */
  lemma {:induction false} FirstDayOfOwnYear(y: int)
    requires !(0 <= y <= 99)
    ensures FirstDayOfYear(y) == Date(y, 1, 1)
    ensures DayOf(FirstDayOfYear(y)) == DayFromYear(y)
  {
    assert Normalize(y, 1, 1) == Date(y, 1, 1);
  }

  /**
   * The week number counts Sunday-to-Saturday weeks, the first being the
   * one that holds January 1: it is the number of Sundays from the week of
   * January 1 to the week of the date.
   */
  lemma {:induction false} WeekNumberCountsWeeks(d: Date)
    requires ValidDate(d) && !(0 <= d.year <= 99)
    ensures var jan1 := DayFromYear(d.year);
      WeekNumber(d) == ((DayOf(d) - WeekDay(DayOf(d))) - (jan1 - WeekDay(jan1))) / 7 + 1
  {
    FirstDayOfOwnYear(d.year);
    var jan1, n := DayFromYear(d.year), DayOf(d);
    var wj, wn := WeekDay(jan1), WeekDay(n);
    var a, b := (n - wn) / 7, (jan1 - wj) / 7;
    assert n - wn == 7 * a + 3 && jan1 - wj == 7 * b + 3;
    var x := n - jan1 + wj;
    assert x == 7 * (a - b) + wn;
    DivBy7(-x - 1, -(a - b) - 1, 6 - wn);
    DivBy7((n - wn) - (jan1 - wj), a - b, 0);
  }

  /** Floor division by 7 with the quotient and remainder given. */
  lemma {:induction false} DivBy7(x: int, q: int, r: int)
    requires x == 7 * q + r && 0 <= r < 7
    ensures x / 7 == q
  {
  }

  /** January 1 is always in week 1. */
  lemma {:induction false} JanuaryFirstIsWeekOne(y: int)
    requires !(0 <= y <= 99)
    ensures WeekNumber(Date(y, 1, 1)) == 1
  {
    FirstDayOfOwnYear(y);
  }

  /** Week numbers run from 1 to 54. */
  lemma {:induction false} WeekNumberRange(d: Date)
    requires ValidDate(d) && !(0 <= d.year <= 99)
    ensures 1 <= WeekNumber(d) <= 54
  {
    FirstDayOfOwnYear(d.year);
    DayOfWithinYear(d);
  }

  /**
   * Two days of one year get the same week number exactly when they lie in
   * the same Sunday-to-Saturday week.
   */
  lemma {:induction false} SameWeekNumber(a: Date, b: Date)
    requires ValidDate(a) && ValidDate(b) && a.year == b.year && !(0 <= a.year <= 99)
    ensures WeekNumber(a) == WeekNumber(b) <==>
      DayOf(a) - WeekDay(DayOf(a)) == DayOf(b) - WeekDay(DayOf(b))
  {
    var jan1, na, nb := DayFromYear(a.year), DayOf(a), DayOf(b);
    var sa, sb, first := na - WeekDay(na), nb - WeekDay(nb), jan1 - WeekDay(jan1);
    var wa, wb := WeekNumber(a), WeekNumber(b);
    assert wa == (sa - first) / 7 + 1 by { WeekNumberCountsWeeks(a); }
    assert wb == (sb - first) / 7 + 1 by { WeekNumberCountsWeeks(b); }
    SundayDistance(sa, sb, first, wa, wb);
  }

  /** Whole weeks between Sundays: two Sundays are as many weeks from a third only when they coincide. */
  lemma {:induction false} SundayDistance(sa: int, sb: int, first: int, wa: int, wb: int)
    requires sa % 7 == 3 && sb % 7 == 3 && first % 7 == 3
    requires wa == (sa - first) / 7 + 1 && wb == (sb - first) / 7 + 1
    ensures wa == wb <==> sa == sb
  {
    var qa, qb, q := sa / 7, sb / 7, first / 7;
    DivBy7(sa - first, qa - q, 0);
    DivBy7(sb - first, qb - q, 0);
  }

  /**
   * The scheme is not ISO 8601 week numbering: December 31, 2000 (a leap
   * year that began on a Saturday) falls in week 54, where ISO weeks stop
   * at 53.
   */
  lemma {:induction false} WeekFiftyFour()
    ensures WeekNumber(Date(2000, 12, 31)) == 54
  {
    FirstDayOfOwnYear(2000);
  }

  /** `getWeekKey`: `${year}-W${weekNumber.toString().padStart(2, '0')}`. */
  function WeekKey(d: Date): string
    requires ValidDate(d)
  {
    IntToDecimal(d.year) + "-W" + PadStart2(IntToDecimal(WeekNumber(d)))
  }

  /**
   * For four-digit years, week keys sort as (year, week number) pairs do,
   * and two dates share a key exactly when they share year and week number.
   */
  lemma {:induction false} WeekKeyOrder(a: Date, b: Date)
    requires ValidDate(a) && ValidDate(b)
    requires 1000 <= a.year <= 9999 && 1000 <= b.year <= 9999
    ensures LexLess(WeekKey(a), WeekKey(b)) <==>
      a.year < b.year || (a.year == b.year && WeekNumber(a) < WeekNumber(b))
    ensures WeekKey(a) == WeekKey(b) <==> a.year == b.year && WeekNumber(a) == WeekNumber(b)
  {
    WeekNumberRange(a);
    WeekNumberRange(b);
    DatedKeyOrder(a.year, WeekNumber(a), b.year, WeekNumber(b), "-W");
  }

  function WeekKeyOf(t: Transaction): string
  {
    WeekKey(t.date)
  }

  /** The bar label: `week.replace('-W', ' W')`. */
  function WeekLabel(key: string): string
  {
    ReplaceFirst(key, "-W", " W")
  }

  /** The label of a week key is the key with its `-W` turned into ` W`: "2024 W09". */
  lemma {:induction false} WeekLabelOfKey(d: Date)
    requires ValidDate(d) && !(0 <= d.year <= 99)
    ensures WeekLabel(WeekKey(d)) == IntToDecimal(d.year) + " W" + Pad2(WeekNumber(d))
  {
    WeekNumberRange(d);
    var y := IntToDecimal(d.year);
    assert 'W' !in y by {
      if d.year >= 0 {
        assert AllDigits(NatToDecimal(d.year));
      } else {
        assert y[1..] == NatToDecimal(-d.year);
        assert AllDigits(y[1..]);
      }
    }
    ReplaceFirstAfter(y, "-W", PadStart2(IntToDecimal(WeekNumber(d))), " W");
  }

  /** A bar of `barData`. */
  datatype Bar = Bar(week: string, amount: Cents)

  /**
   * `weeklyData` / `barData`: the expenses summed per week key, sorted by
   * key, the last eight, each labelled with `WeekLabel`. `weeks` is the
   * sorted and sliced list of `[key, amount]` entries the bars are made
   * from. The weeks shown are distinct weeks of the expenses in ascending
   * key order, as many as there are up to eight, each valued at that
   * week's expense total; every week left out sorts before every week shown.
   */
  method BarData(txs: seq<Transaction>) returns (weeks: seq<Slice>, bars: seq<Bar>)
    ensures |weeks| == if |Keys(Expenses(txs), WeekKeyOf)| < 8 then |Keys(Expenses(txs), WeekKeyOf)| else 8
    ensures forall i, j :: 0 <= i < j < |weeks| ==> LexLess(weeks[i].name, weeks[j].name)
    ensures forall w :: w in weeks ==>
      w.name in Keys(Expenses(txs), WeekKeyOf) && w.value == KeySum(Expenses(txs), WeekKeyOf, AmountOf, w.name)
    ensures forall k, w :: k in Keys(Expenses(txs), WeekKeyOf) && k !in MapSeq(weeks, NameOf) && w in weeks ==>
      LexLess(k, w.name)
    ensures |bars| == |weeks|
    ensures forall i :: 0 <= i < |bars| ==> bars[i] == Bar(WeekLabel(weeks[i].name), weeks[i].value)
  {
    weeks := LastGroups(Expenses(txs), WeekKeyOf, AmountOf, 8);
    bars := MapSeq(weeks, (w: Slice) => Bar(WeekLabel(w.name), w.value));
  }

  /**
   * The rows summed per key, then `.sort(by key).slice(-n)`: the last `n`
   * groups in ascending key order, each a key of the rows with its sum,
   * every key left out below every key kept.
   */
  method LastGroups(rows: seq<Transaction>, key: Transaction -> string, amount: Transaction -> int, n: nat)
    returns (groups: seq<Slice>)
    ensures |groups| == if n == 0 || |Keys(rows, key)| < n then |Keys(rows, key)| else n
    ensures forall i, j :: 0 <= i < j < |groups| ==> LexLess(groups[i].name, groups[j].name)
    ensures forall g :: g in groups ==> g.name in Keys(rows, key) && g.value == KeySum(rows, key, amount, g.name)
    ensures forall k, g :: k in Keys(rows, key) && k !in MapSeq(groups, NameOf) && g in groups ==> LexLess(k, g.name)
  {
    var all := Group(rows, key, amount);
    GroupedSpec(rows, key, amount);
    KeysSpec(rows, key);
    groups := LastByKey(all, NameOf, n);
    assert forall g :: g in all ==> g.name in Keys(rows, key) by {
      forall g | g in all
        ensures g.name in Keys(rows, key)
      {
        var i :| 0 <= i < |all| && all[i] == g;
        assert MapSeq(all, NameOf)[i] == g.name;
      }
    }
  }
}
