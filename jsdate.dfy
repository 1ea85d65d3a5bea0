/**
 * A JavaScript `Date` object as the components use it: a mutable instant
 * read through `getDate`, `getDay`, `getMonth`, `getFullYear` and
 * `getTime`, and moved by `setDate`, `setMonth` and `setFullYear`, each of
 * which rolls an out-of-range day or month over into the neighbouring
 * months and years. The time of day is kept by every setter.
 */
module JsDates {
  import opened Calendar

  class JsDate {
    var date: Date
    var msOfDay: int

    ghost predicate Valid()
      reads this
    {
      ValidMoment(Moment(date, msOfDay))
    }

    /** The instant this object holds. */
    function Value(): (t: Moment)
      reads this
      requires Valid()
      ensures ValidMoment(t)
    {
      Moment(date, msOfDay)
    }

    /** `new Date()` at the instant `now`, or `new Date(other)` for another object holding `now`. */
    constructor At(now: Moment)
      requires ValidMoment(now)
      ensures Valid() && Value() == now
    {
      date := now.date;
      msOfDay := now.msOfDay;
    }

    /**
     * `new Date(year, monthIndex, day)`: local midnight, month and day
     * normalised, a year 0..99 read as 1900 + year.
     */
    constructor FromParts(year: int, monthIndex: int, day: int)
      ensures Valid() && msOfDay == 0
      ensures date == MakeDate(ConstructorYear(year), monthIndex, day)
    {
      date := MakeDate(ConstructorYear(year), monthIndex, day);
      msOfDay := 0;
    }

    /** `getDate()`: the day of the month, 1..31. */
    function GetDate(): (d: int)
      reads this
      requires Valid()
      ensures 1 <= d <= 31
    {
      date.day
    }

    /** `getDay()`: the day of the week, 0 (Sunday) to 6 (Saturday). */
    function GetDay(): (w: int)
      reads this
      requires Valid()
      ensures 0 <= w < 7 && w == WeekDay(DayOf(date))
    {
      WeekDay(DayOf(date))
    }

    /** `getMonth()`: the zero-based month index, 0..11. */
    function GetMonth(): (m: int)
      reads this
      requires Valid()
      ensures 0 <= m < 12 && m + 1 == date.month
    {
      date.month - 1
    }

    function GetFullYear(): int
      reads this
    {
      date.year
    }

    /** `getTime()`: milliseconds since the epoch. */
    function GetTime(): (ms: int)
      reads this
      requires Valid()
      ensures ms == TimeOf(Value())
    {
      DayOf(date) * MsPerDay + msOfDay
    }

    /** `setDate(d)`: day `d` of the current month, `d` rolling over either way. */
    method SetDate(d: int)
      requires Valid()
      modifies this
      ensures Valid() && msOfDay == old(msOfDay)
      ensures date == Normalize(old(date.year), old(date.month), d)
    {
      date := Normalize(date.year, date.month, d);
    }

    /** `setMonth(m)`: month index `m` of the current year, keeping the day of the month. */
    method SetMonth(monthIndex: int)
      requires Valid()
      modifies this
      ensures Valid() && msOfDay == old(msOfDay)
      ensures date == MakeDate(old(date.year), monthIndex, old(date.day))
    {
      date := MakeDate(date.year, monthIndex, date.day);
    }

    /** `setFullYear(y)`: the same month and day in year `y` (29 February may become 1 March). */
    method SetFullYear(year: int)
      requires Valid()
      modifies this
      ensures Valid() && msOfDay == old(msOfDay)
      ensures date == MakeDate(year, old(date.month) - 1, old(date.day))
    {
      date := MakeDate(year, date.month - 1, date.day);
    }
  }
}
