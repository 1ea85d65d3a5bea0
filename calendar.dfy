/**
 * Civil-calendar arithmetic of JavaScript's `Date` in the proleptic Gregorian
 * calendar: leap years, month lengths, day numbers counted from 1970-01-01
 * (the ECMAScript DayFromYear/MakeDay formulas), week days, and the
 * month/day overflow normalisation that `new Date(y, m, d)`, `setDate` and
 * `setMonth` perform. One time zone throughout.
 */
module Calendar {

  /** Milliseconds in one day (ECMAScript msPerDay). */
  const MsPerDay: int := 86400000

  /** A calendar date; `month` runs 1..12 (JavaScript's month index plus one). */
  datatype Date = Date(year: int, month: int, day: int)

  /** An instant: a calendar date and the milliseconds elapsed since its midnight. */
  datatype Moment = Moment(date: Date, msOfDay: int)

  predicate IsLeapYear(y: int)
  {
    y % 4 == 0 && (y % 100 != 0 || y % 400 == 0)
  }

  function DaysInYear(y: int): int
  {
    if IsLeapYear(y) then 366 else 365
  }

  function DaysInMonth(y: int, m: int): (n: int)
    requires 1 <= m <= 12
    ensures 28 <= n <= 31
    ensures m == 2 ==> (n == 29 <==> IsLeapYear(y))
  {
    if m == 2 then (if IsLeapYear(y) then 29 else 28)
    else if m == 4 || m == 6 || m == 9 || m == 11 then 30
    else 31
  }

  predicate ValidDate(d: Date)
  {
    1 <= d.month <= 12 && 1 <= d.day <= DaysInMonth(d.year, d.month)
  }

  /** A date that exists: the type of every stored date column. */
  type CivilDate = d: Date | ValidDate(d) witness Date(1970, 1, 1)

  predicate ValidMoment(t: Moment)
  {
    ValidDate(t.date) && 0 <= t.msOfDay < MsPerDay
  }

  /** Days from 1970-01-01 to January 1 of year `y` (ECMAScript DayFromYear, with floor division). */
  function DayFromYear(y: int): int
  {
    365 * (y - 1970) + (y - 1969) / 4 - (y - 1901) / 100 + (y - 1601) / 400
  }

  /** Days from January 1 to the first day of month `m` of year `y`. */
  function DaysBeforeMonth(y: int, m: int): int
    requires 1 <= m <= 12
  {
    (if m == 1 then 0 else if m == 2 then 31 else if m == 3 then 59
     else if m == 4 then 90 else if m == 5 then 120 else if m == 6 then 151
     else if m == 7 then 181 else if m == 8 then 212 else if m == 9 then 243
     else if m == 10 then 273 else if m == 11 then 304 else 334)
      + (if m > 2 && IsLeapYear(y) then 1 else 0)
  }

  /**
   * Day number (days since 1970-01-01) of day `d` of month `m` in year `y`;
   * `d` may lie outside the month, as in ECMAScript MakeDay.
   */
  function DayNumber(y: int, m: int, d: int): int
    requires 1 <= m <= 12
  {
    DayFromYear(y) + DaysBeforeMonth(y, m) + d - 1
  }

  function DayOf(d: Date): int
    requires 1 <= d.month <= 12
  {
    DayNumber(d.year, d.month, d.day)
  }

  /** ECMAScript MakeDay: the month index is zero-based and may overflow in either direction. */
  function MakeDay(y: int, monthIndex: int, d: int): int
  {
    DayNumber(y + monthIndex / 12, monthIndex % 12 + 1, d)
  }

  /** Milliseconds since 1970-01-01T00:00 of an instant (`getTime()`). */
  function TimeOf(t: Moment): int
    requires 1 <= t.date.month <= 12
  {
    DayOf(t.date) * MsPerDay + t.msOfDay
  }

  /** ECMAScript WeekDay: 0 is Sunday; 1970-01-01 was a Thursday. */
  function WeekDay(dayNumber: int): (w: int)
    ensures 0 <= w < 7
    ensures (dayNumber - w) % 7 == 3
  {
    (dayNumber + 4) % 7
  }

  /** `Math.ceil(a / b)` for a positive divisor. */
  function CeilDiv(a: int, b: int): (r: int)
    requires b > 0
    ensures (r - 1) * b < a <= r * b
  {
    -((-a) / b)
  }

  /** The year `new Date(y, m, d)` uses: a year 0..99 is read as 1900 + y. */
  function ConstructorYear(y: int): int
  {
    if 0 <= y <= 99 then 1900 + y else y
  }

  function PrevMonth(y: int, m: int): (r: (int, int))
    requires 1 <= m <= 12
    ensures 1 <= r.1 <= 12
  {
    if m == 1 then (y - 1, 12) else (y, m - 1)
  }

  function NextMonth(y: int, m: int): (r: (int, int))
    requires 1 <= m <= 12
    ensures 1 <= r.1 <= 12
  {
    if m == 12 then (y + 1, 1) else (y, m + 1)
  }

  /** Each of the three leap-day counts in `DayFromYear` grows by one across year `y` exactly when `y` is a multiple. */
  lemma {:induction false} LeapCountStep4(y: int)
    ensures (y - 1968) / 4 - (y - 1969) / 4 == if y % 4 == 0 then 1 else 0
  {
  }

  lemma {:induction false} LeapCountStep100(y: int)
    ensures (y - 1900) / 100 - (y - 1901) / 100 == if y % 100 == 0 then 1 else 0
  {
  }

  lemma {:induction false} LeapCountStep400(y: int)
    ensures (y - 1600) / 400 - (y - 1601) / 400 == if y % 400 == 0 then 1 else 0
  {
  }

  /** A multiple of 400 is a multiple of 100, and a multiple of 100 is a multiple of 4. */
  lemma {:induction false} MultipleChain(y: int)
    ensures y % 400 == 0 ==> y % 100 == 0
    ensures y % 100 == 0 ==> y % 4 == 0
  {
  }

  /** January 1 of the next year comes `DaysInYear(y)` days after January 1 of `y`. */
  lemma {:induction false} DayFromYearStep(y: int)
    ensures DayFromYear(y + 1) == DayFromYear(y) + DaysInYear(y)
  {
    LeapCountStep4(y);
    LeapCountStep100(y);
    LeapCountStep400(y);
    MultipleChain(y);
  }

  /** The first of the next month comes `DaysInMonth(y, m)` days after the first of month `m`. */
  lemma {:induction false} NextMonthStep(y: int, m: int)
    requires 1 <= m <= 12
    ensures var (ny, nm) := NextMonth(y, m);
      DayNumber(ny, nm, 1) == DayNumber(y, m, 1) + DaysInMonth(y, m)
  {
    if m == 12 {
      DayFromYearStep(y);
    }
  }

  /**
   * Moves day `d` of month `m` into range by borrowing from or carrying into
   * neighbouring months, as JavaScript does for an out-of-range day. The
   * result is a real date; `NormalizeDay` shows it is on the same day number.
   */
  function Normalize(y: int, m: int, d: int): (r: Date)
    requires 1 <= m <= 12
    ensures ValidDate(r)
    decreases if d < 1 then 1 else 0, if d < 1 then -d else d
  {
    if 1 <= d <= DaysInMonth(y, m) then Date(y, m, d)
    else
      var (y', m', d') := StepMonth(y, m, d);
      Normalize(y', m', d')
  }

  /** One step of `Normalize`: into the previous month for a day before the first, else into the next. */
  function StepMonth(y: int, m: int, d: int): (r: (int, int, int))
    requires 1 <= m <= 12
    ensures 1 <= r.1 <= 12
    ensures d < 1 ==> r.2 > d && (r.2 < 1 || r.2 <= DaysInMonth(r.0, r.1))
    ensures d > DaysInMonth(y, m) ==> 1 <= r.2 < d
  {
    if d < 1 then
      var (py, pm) := PrevMonth(y, m);
      (py, pm, d + DaysInMonth(py, pm))
    else
      var (ny, nm) := NextMonth(y, m);
      (ny, nm, d - DaysInMonth(y, m))
  }

  /** Normalising keeps the day number: the real date is the day `d` of month `m` stood for. */
  lemma {:induction false} NormalizeDay(y: int, m: int, d: int)
    requires 1 <= m <= 12
    ensures DayOf(Normalize(y, m, d)) == DayNumber(y, m, d)
    decreases if d < 1 then 1 else 0, if d < 1 then -d else d
  {
    if d < 1 {
      var (py, pm) := PrevMonth(y, m);
      NextMonthStep(py, pm);
      NormalizeDay(py, pm, d + DaysInMonth(py, pm));
    } else if d > DaysInMonth(y, m) {
      var (ny, nm) := NextMonth(y, m);
      NextMonthStep(y, m);
      NormalizeDay(ny, nm, d - DaysInMonth(y, m));
    }
  }

  /** The date `new Date(y, monthIndex, d)` denotes, month index and day both normalised. */
  function MakeDate(y: int, monthIndex: int, d: int): (r: Date)
    ensures ValidDate(r)
  {
    Normalize(y + monthIndex / 12, monthIndex % 12 + 1, d)
  }

  /** The date `MakeDate` builds is on ECMAScript's MakeDay day number. */
  lemma {:induction false} MakeDateDay(y: int, monthIndex: int, d: int)
    ensures DayOf(MakeDate(y, monthIndex, d)) == MakeDay(y, monthIndex, d)
  {
    NormalizeDay(y + monthIndex / 12, monthIndex % 12 + 1, d);
  }

  /** The same day a year earlier: 365 or 366 days back, by whether the year ending on it holds a 29 February. */
  lemma {:induction false} YearEarlierDay(y: int, m: int, d: int)
    requires 1 <= m <= 12
    ensures DayNumber(y, m, d) - DayNumber(y - 1, m, d) == if m > 2 then DaysInYear(y) else DaysInYear(y - 1)
  {
    assert DayFromYear(y) - DayFromYear(y - 1) == DaysInYear(y - 1) by {
      DayFromYearStep(y - 1);
    }
    assert DaysBeforeMonth(y, m) - DaysBeforeMonth(y - 1, m)
        == if m > 2 then DaysInYear(y) - DaysInYear(y - 1) else 0;
  }

  /** A month index up to twelve months back stays in year `y` or falls in the year before. */
  lemma {:induction false} MakeDateNearDay(y: int, monthIndex: int, d: int)
    requires -12 <= monthIndex < 12
    ensures DayOf(MakeDate(y, monthIndex, d))
         == if monthIndex >= 0 then DayNumber(y, monthIndex + 1, d) else DayNumber(y - 1, monthIndex + 13, d)
  {
    MakeDateDay(y, monthIndex, d);
    if monthIndex >= 0 {
      assert monthIndex / 12 == 0 && monthIndex % 12 == monthIndex;
    } else {
      assert monthIndex / 12 == -1 && monthIndex % 12 == monthIndex + 12;
    }
  }

  /** A day of year `y` lies between January 1 of `y` and January 1 of `y + 1`. */
  lemma {:induction false} DayOfWithinYear(d: Date)
    requires ValidDate(d)
    ensures DayFromYear(d.year) <= DayOf(d) < DayFromYear(d.year + 1)
    ensures DayOf(d) - DayFromYear(d.year) < DaysInYear(d.year)
  {
    DayFromYearStep(d.year);
  }

  lemma {:induction false} DayFromYearMonotone(a: int, b: int)
    requires a < b
    ensures DayFromYear(a + 1) <= DayFromYear(b)
    decreases b - a
  {
    if a + 1 < b {
      DayFromYearMonotone(a + 1, b);
      DayFromYearStep(a + 1);
    }
  }

  /** Distinct real dates have distinct day numbers, so a day number names one date. */
  lemma {:induction false} DayOfInjective(a: Date, b: Date)
    requires ValidDate(a) && ValidDate(b)
    requires DayOf(a) == DayOf(b)
    ensures a == b
  {
    DayOfWithinYear(a);
    DayOfWithinYear(b);
    if a.year < b.year {
      DayFromYearMonotone(a.year, b.year);
    } else if b.year < a.year {
      DayFromYearMonotone(b.year, a.year);
    }
    assert a.year == b.year;
  }

  /** `Normalize` leaves a real date alone. */
  lemma {:induction false} NormalizeValid(d: Date)
    requires ValidDate(d)
    ensures Normalize(d.year, d.month, d.day) == d
  {
  }
}
