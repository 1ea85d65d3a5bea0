/**
 * Submitting the "Set Budget" form: the period's first and last day (the
 * Sunday-to-Saturday week around today, or the whole calendar month), the
 * row handed to the insert, and the messages shown for each way the
 * submission can end.
 */
module BudgetForm {
  import opened Calendar
  import opened Records
  import opened JsDates

  datatype Period = Weekly | Monthly

  /** The period as the `period` column holds it. */
  function PeriodText(p: Period): string
  {
    match p
    case Weekly => "weekly"
    case Monthly => "monthly"
  }

  /** The form fields; `amount` is the text typed in. */
  datatype FormData = FormData(category: string, amount: string, period: Period)

  /** The form as it opens: empty fields, period "monthly". */
  const InitialForm: FormData := FormData("", "", Monthly)

  /**
   * The weekly range: a copy of `now` moved back by its week day, then a
   * copy of that moved six days on. Both keep the time of day. The start is
   * the Sunday on or before today, the end the Saturday after it, seven
   * days inclusive, across month and year ends alike.
   */
  method WeeklyRange(now: Moment) returns (start: Moment, end: Moment)
    requires ValidMoment(now)
    ensures ValidMoment(start) && ValidMoment(end)
    ensures start.msOfDay == now.msOfDay && end.msOfDay == now.msOfDay
    ensures WeekDay(DayOf(start.date)) == 0 && WeekDay(DayOf(end.date)) == 6
    ensures DayOf(start.date) <= DayOf(now.date) <= DayOf(end.date)
    ensures DayOf(end.date) - DayOf(start.date) + 1 == 7
  {
    var startOfWeek := new JsDate.At(now);
    var w := startOfWeek.GetDay();
    startOfWeek.SetDate(startOfWeek.GetDate() - w);
    ShiftDays(now.date, -w, startOfWeek.date);
    var endOfWeek := new JsDate.At(startOfWeek.Value());
    ghost var s := endOfWeek.date;
    endOfWeek.SetDate(endOfWeek.GetDate() + 6);
    ShiftDays(s, 6, endOfWeek.date);
    start, end := startOfWeek.Value(), endOfWeek.Value();
    WeekAround(DayOf(now.date), w, DayOf(start.date), DayOf(end.date));
  }

  /** `setDate(getDate() + k)` moves a date by `k` days, whatever month that lands in. */
  lemma {:induction false} ShiftDays(d: Date, k: int, r: Date)
    requires ValidDate(d) && r == Normalize(d.year, d.month, d.day + k)
    ensures DayOf(r) == DayOf(d) + k
  {
    NormalizeDay(d.year, d.month, d.day + k);
  }

  /** The week of day `n`: back to its Sunday, then on to the Saturday. */
  lemma {:induction false} WeekAround(n: int, w: int, a: int, b: int)
    requires w == WeekDay(n) && a == n - w && b == a + 6
    ensures WeekDay(a) == 0 && WeekDay(b) == 6 && a <= n <= b && b - a + 1 == 7
  {
    SundayOnOrBefore(n);
  }

  /** Going back by its week day from any day lands on a Sunday, and six days on from there on a Saturday. */
  lemma {:induction false} SundayOnOrBefore(n: int)
    ensures WeekDay(n - WeekDay(n)) == 0 && WeekDay(n - WeekDay(n) + 6) == 6
  {
    var k := (n + 4) / 7;
    assert n - WeekDay(n) + 4 == 7 * k;
  }

  /** Two Sundays less than a week apart are the same day. */
  lemma {:induction false} SundayUnique(a: int, b: int)
    requires WeekDay(a) == 0 && WeekDay(b) == 0 && -6 <= a - b <= 6
    ensures a == b
  {
    var k, j := (a + 4) / 7, (b + 4) / 7;
    assert a + 4 == 7 * k && b + 4 == 7 * j;
    assert a - b == 7 * (k - j);
  }

  /**
   * The monthly range: `new Date(year, month, 1)` and `new Date(year,
   * month + 1, 0)`, at midnight. Day 0 of the next month is the last day of
   * this one, so the range is the whole month, 28 to 31 days. The year goes
   * through the constructor, which reads a year 0..99 as 1900 onwards, so
   * only outside those years is today inside the range.
   */
  method MonthlyRange(now: Moment) returns (start: Moment, end: Moment)
    requires ValidMoment(now)
    ensures ValidMoment(start) && ValidMoment(end) && start.msOfDay == 0 && end.msOfDay == 0
    ensures var y, m := ConstructorYear(now.date.year), now.date.month;
      start.date == Date(y, m, 1) && end.date == Date(y, m, DaysInMonth(y, m))
    ensures !(0 <= now.date.year <= 99) ==> DayOf(start.date) <= DayOf(now.date) <= DayOf(end.date)
  {
    var first := new JsDate.FromParts(now.date.year, now.date.month - 1, 1);
    var last := new JsDate.FromParts(now.date.year, now.date.month, 0);
    start, end := first.Value(), last.Value();
    FirstOfMonth(ConstructorYear(now.date.year), now.date.month, start.date);
    DayZeroOfNextMonth(ConstructorYear(now.date.year), now.date.month, end.date);
  }

  /** `new Date(y, m - 1, 1)` is the first of month `m`. */
  lemma {:induction false} FirstOfMonth(y: int, m: int, r: Date)
    requires 1 <= m <= 12 && r == MakeDate(y, m - 1, 1)
    ensures r == Date(y, m, 1)
  {
    assert (m - 1) / 12 == 0 && (m - 1) % 12 + 1 == m;
    NormalizeValid(Date(y, m, 1));
  }

  /** `new Date(y, m, 0)`, day 0 of the month after month `m`, is the last day of month `m`. */
  lemma {:induction false} DayZeroOfNextMonth(y: int, m: int, r: Date)
    requires 1 <= m <= 12 && r == MakeDate(y, m, 0)
    ensures r == Date(y, m, DaysInMonth(y, m))
  {
    var (ny, nm) := NextMonth(y, m);
    assert y + m / 12 == ny && m % 12 + 1 == nm;
    NextMonthStep(y, m);
    NormalizeDay(ny, nm, 0);
    DayOfInjective(r, Date(y, m, DaysInMonth(y, m)));
  }

  /** The period's first and last instants: the week around today for "weekly", the month otherwise. */
  method PeriodRange(period: Period, now: Moment) returns (start: Moment, end: Moment)
    requires ValidMoment(now)
    ensures ValidMoment(start) && ValidMoment(end)
    ensures IsPeriodRange(period, now, start.date, end.date)
  {
    if period == Weekly {
      start, end := WeeklyRange(now);
    } else {
      start, end := MonthlyRange(now);
    }
  }

  /** `start` and `end` are the first and last day of the period that `PeriodRange` describes. */
  predicate IsPeriodRange(period: Period, now: Moment, start: Date, end: Date)
    requires ValidMoment(now)
  {
    && ValidDate(start) && ValidDate(end)
    && match period
      case Weekly =>
        && WeekDay(DayOf(start)) == 0
        && DayOf(start) <= DayOf(now.date) <= DayOf(start) + 6
        && DayOf(end) == DayOf(start) + 6
      case Monthly =>
        var y, m := ConstructorYear(now.date.year), now.date.month;
        start == Date(y, m, 1) && end == Date(y, m, DaysInMonth(y, m))
  }

  /** A period range names one pair of dates: the week's Sunday and the month's first day are determined by today. */
  lemma {:induction false} PeriodRangeUnique(period: Period, now: Moment, s1: Date, e1: Date, s2: Date, e2: Date)
    requires ValidMoment(now)
    requires IsPeriodRange(period, now, s1, e1) && IsPeriodRange(period, now, s2, e2)
    ensures s1 == s2 && e1 == e2
  {
    if period == Weekly {
      SundayUnique(DayOf(s1), DayOf(s2));
      DayOfInjective(s1, s2);
      DayOfInjective(e1, e2);
    }
  }

  /** The row given to the insert. */
  datatype BudgetRow = BudgetRow(
    userId: string,
    category: string,
    amount: Cents,
    period: string,
    startDate: string,
    endDate: string)

  /** How `getUser` answered: it threw, no one is signed in, or the signed-in user's id. */
  datatype AuthResult = AuthThrew | SignedOut | SignedIn(userId: string)

  /** How the insert answered: no error, an error with its code, or a thrown exception. */
  datatype InsertResult = InsertOk | InsertFailed(code: string) | InsertThrew

  /** What the submission does, in order: the loading flag, the insert, toasts and the two callbacks. */
  datatype Effect =
    | Loading(on: bool)
    | Insert(row: BudgetRow)
    | Toast(title: string, description: string, destructive: bool)
    | BudgetCreated
    | Close

  const NotSignedIn: Effect := Toast("Error", "You must be logged in to create budgets", true)
  const Unexpected: Effect := Toast("Error", "An unexpected error occurred", true)

  /**
   * The effects after the insert answered: on success a toast, then
   * `onBudgetCreated`, then `onClose`; a duplicate (code 23505) names the
   * period and category; any other error gets the generic message; a throw
   * the "unexpected" one. The form stays open on every failure.
   */
  function AfterInsert(result: InsertResult, form: FormData): (r: seq<Effect>)
    ensures (BudgetCreated in r) <==> result.InsertOk?
    ensures (Close in r) <==> result.InsertOk?
    ensures result.InsertOk? ==> r == [Toast("Success", "Budget created successfully", false), BudgetCreated, Close]
    ensures !result.InsertOk? ==> |r| == 1 && r[0].Toast? && r[0].destructive
    ensures result == InsertFailed("23505") ==>
      r[0] == Toast("Budget already exists", "You already have a " + PeriodText(form.period) + " budget for " + form.category, true)
    ensures result.InsertFailed? && result.code != "23505" ==> r[0] == Toast("Error", "Failed to create budget", true)
    ensures result.InsertThrew? ==> r[0] == Unexpected
  {
    match result
    case InsertOk => [Toast("Success", "Budget created successfully", false), BudgetCreated, Close]
    case InsertFailed(code) =>
      if code == "23505" then
        [Toast("Budget already exists", "You already have a " + PeriodText(form.period) + " budget for " + form.category, true)]
      else [Toast("Error", "Failed to create budget", true)]
    case InsertThrew => [Unexpected]
  }

  /** The row carries the user, the form's category and period, the parsed amount and the period's dates as `YYYY-MM-DD`. */
  ghost predicate RowFor(row: BudgetRow, form: FormData, userId: string, now: Moment, parseAmount: string -> Cents)
    requires ValidMoment(now)
  {
    && row.userId == userId && row.category == form.category
    && row.amount == parseAmount(form.amount) && row.period == PeriodText(form.period)
    && exists s: Date, e: Date :: IsPeriodRange(form.period, now, s, e) && row.startDate == IsoDate(s) && row.endDate == IsoDate(e)
  }

  /**
   * `handleSubmit`: `auth` is what `getUser` answered, `insert` the
   * database's answer to a row, `parseAmount` is `parseFloat` on the amount
   * text. The loading flag is set first and cleared last whatever happens;
   * a row is inserted only when a user is signed in, and then before any
   * message.
   */
  method HandleSubmit(form: FormData, now: Moment, auth: AuthResult, insert: BudgetRow -> InsertResult, parseAmount: string -> Cents)
    returns (effects: seq<Effect>)
    requires ValidMoment(now)
    ensures |effects| >= 3 && effects[0] == Loading(true) && effects[|effects| - 1] == Loading(false)
    ensures auth.SignedOut? ==> effects == [Loading(true), NotSignedIn, Loading(false)]
    ensures auth.AuthThrew? ==> effects == [Loading(true), Unexpected, Loading(false)]
    ensures auth.SignedIn? ==>
      && effects[1].Insert? && RowFor(effects[1].row, form, auth.userId, now, parseAmount)
      && effects == [Loading(true), effects[1]] + AfterInsert(insert(effects[1].row), form) + [Loading(false)]
  {
    match auth {
      case AuthThrew =>
        effects := [Loading(true), Unexpected, Loading(false)];
      case SignedOut =>
        effects := [Loading(true), NotSignedIn, Loading(false)];
      case SignedIn(userId) =>
        var start, end := PeriodRange(form.period, now);
        var row := BudgetRow(userId, form.category, parseAmount(form.amount), PeriodText(form.period),
                             IsoDate(start.date), IsoDate(end.date));
        effects := [Loading(true), Insert(row)] + AfterInsert(insert(row), form) + [Loading(false)];
        assert RowFor(row, form, userId, now, parseAmount) by {
          assert IsPeriodRange(form.period, now, start.date, end.date);
        }
    }
  }
}
