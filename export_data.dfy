/**
 * The export page: the period filter (the last month, quarter or year
 * counted back from `now` by moving a `Date`'s month or year), the CSV
 * document of the filtered transactions, and the rows and summary of the
 * PDF report.
 */
module ExportData {
  import opened Calendar
  import opened Text
  import opened Seqs
  import opened Records
  import opened JsDates
  import opened Csv

  /** The period picked in the form. */
  datatype DateRange = AllTime | LastMonth | LastQuarter | LastYear

  /** The select's value for a period. */
  function RangeName(r: DateRange): string
  {
    match r
    case AllTime => "all"
    case LastMonth => "month"
    case LastQuarter => "quarter"
    case LastYear => "year"
  }

  /**
   * `startDate`: `now` with its month index moved back one or three, or its
   * year back one. The day of the month and the time of day are kept, and a
   * day the new month lacks rolls over into the month after.
   */
  function RangeStart(range: DateRange, now: Moment): (start: Moment)
    requires ValidMoment(now) && range != AllTime
    ensures ValidMoment(start) && start.msOfDay == now.msOfDay
  {
    Moment(StartDay(range, now.date), now.msOfDay)
  }

  /** The date part of `RangeStart`: the year and month index handed to the setter, with today's day. */
  function StartDay(range: DateRange, d: Date): (r: Date)
    requires range != AllTime
    ensures ValidDate(r)
  {
    MakeDate(StartYear(range, d), StartMonthIndex(range, d), d.day)
  }

  /** The year after the setter: this year, or last year for "year". */
  function StartYear(range: DateRange, d: Date): int
  {
    if range == LastYear then d.year - 1 else d.year
  }

  /** The month index after the setter: one or three back, or unchanged for "year"; it may run below 0. */
  function StartMonthIndex(range: DateRange, d: Date): int
  {
    match range
    case LastMonth => (d.month - 1) - 1
    case LastQuarter => (d.month - 1) - 3
    case _ => d.month - 1
  }

  /** The switch on the period, on a fresh `Date` at `now`. */
  method StartDate(range: DateRange, now: Moment) returns (start: Moment)
    requires ValidMoment(now) && range != AllTime
    ensures start == RangeStart(range, now)
  {
    var current := new JsDate.At(now);
    var d := new JsDate.At(now);
    var year, month, day := d.date.year, d.date.month, d.date.day;
    assert year == now.date.year && month == now.date.month && day == now.date.day;
    if range == LastMonth {
      var monthIndex := current.GetMonth() - 1;
      assert monthIndex == (now.date.month - 1) - 1;
      d.SetMonth(monthIndex);
      assert d.date == MakeDate(year, monthIndex, day) == StartDay(range, now.date);
    } else if range == LastQuarter {
      var monthIndex := current.GetMonth() - 3;
      assert monthIndex == (now.date.month - 1) - 3;
      d.SetMonth(monthIndex);
      assert d.date == MakeDate(year, monthIndex, day) == StartDay(range, now.date);
    } else {
      var y := current.GetFullYear() - 1;
      assert y == now.date.year - 1;
      d.SetFullYear(y);
      assert d.date == MakeDate(y, month - 1, day) == StartDay(range, now.date);
    }
    assert d.msOfDay == now.msOfDay;
    start := d.Value();
  }

  /**
   * How many days back the period reaches, counted independently of the
   * `Date` arithmetic: the length of the previous month; of the previous
   * three months; or of the year ending today, which holds a 29 February
   * of this year (from March on) or of last year (in January and February).
   */
  function RangeDays(range: DateRange, today: Date): int
    requires ValidDate(today) && range != AllTime
  {
    match range
    case LastMonth => MonthDays(today)
    case LastQuarter => QuarterDays(today)
    case _ => YearDays(today)
  }

  /** The length of the month before this one. */
  function MonthDays(today: Date): int
    requires ValidDate(today)
  {
    var (y1, m1) := PrevMonth(today.year, today.month);
    DaysInMonth(y1, m1)
  }

  /** The lengths of the three months before this one. */
  function QuarterDays(today: Date): int
    requires ValidDate(today)
  {
    var (y1, m1) := PrevMonth(today.year, today.month);
    var (y2, m2) := PrevMonth(y1, m1);
    var (y3, m3) := PrevMonth(y2, m2);
    DaysInMonth(y1, m1) + DaysInMonth(y2, m2) + DaysInMonth(y3, m3)
  }

  /** 366 when the year ending today holds a 29 February, else 365. */
  function YearDays(today: Date): int
    requires ValidDate(today)
  {
    var (y, m) := (today.year, today.month);
    if (m > 2 && IsLeapYear(y)) || (m <= 2 && IsLeapYear(y - 1)) then 366 else 365
  }

  /** The month before `(y, m)` ends where month `m` begins. */
  lemma {:induction false} PrevMonthStep(y: int, m: int, d: int)
    requires 1 <= m <= 12
    ensures var (py, pm) := PrevMonth(y, m);
      DayNumber(y, m, d) == DayNumber(py, pm, d) + DaysInMonth(py, pm)
  {
    var (py, pm) := PrevMonth(y, m);
    NextMonthStep(py, pm);
  }

  /**
   * The period starts exactly `RangeDays` calendar days before today, at
   * the same time of day: 28 to 31 days for a month, 89 to 92 for a
   * quarter, 365 or 366 for a year. Near the end of a month the start can
   * fall in the current month (31 March goes back to 2 or 3 March).
   */
  lemma {:induction false} RangeStartSpan(range: DateRange, now: Moment)
    requires ValidMoment(now) && range != AllTime
    ensures DayOf(RangeStart(range, now).date) == DayOf(now.date) - RangeDays(range, now.date)
    ensures TimeOf(now) - TimeOf(RangeStart(range, now)) == RangeDays(range, now.date) * MsPerDay
    ensures range == LastMonth ==> 28 <= RangeDays(range, now.date) <= 31
    ensures range == LastQuarter ==> 89 <= RangeDays(range, now.date) <= 92
    ensures range == LastYear ==> 365 <= RangeDays(range, now.date) <= 366
  {
    var n := RangeDays(range, now.date);
    var start := StartDay(range, now.date);
    if range == LastMonth {
      MonthBack(now.date);
    } else if range == LastQuarter {
      QuarterBack(now.date);
      QuarterLength(now.date);
    } else {
      YearBack(now.date);
    }
    assert DayOf(now.date) * MsPerDay - DayOf(start) * MsPerDay == n * MsPerDay;
  }

  /** The start's day number, read off the year and month index given to `setMonth` or `setFullYear`. */
  lemma {:induction false} StartDayNumber(range: DateRange, today: Date, y: int, m: int)
    requires ValidDate(today) && range != AllTime
    requires var (sy, k) := (StartYear(range, today), StartMonthIndex(range, today));
      if k >= 0 then y == sy && m == k + 1 else y == sy - 1 && m == k + 13
    ensures DayOf(StartDay(range, today)) == DayNumber(y, m, today.day)
  {
    MakeDateNearDay(StartYear(range, today), StartMonthIndex(range, today), today.day);
  }

  /** `setMonth(getMonth() - 1)` moves the day number back by the length of the previous month. */
  lemma {:induction false} MonthBack(today: Date)
    requires ValidDate(today)
    ensures DayOf(StartDay(LastMonth, today)) == DayOf(today) - MonthDays(today)
  {
    var (y, m, d) := (today.year, today.month, today.day);
    var (y1, m1) := PrevMonth(y, m);
    StartDayNumber(LastMonth, today, y1, m1);
    PrevMonthStep(y, m, d);
    assert MonthDays(today) == DaysInMonth(y1, m1);
  }

  /** `setMonth(getMonth() - 3)` moves the day number back by the lengths of the three previous months. */
  lemma {:induction false} QuarterBack(today: Date)
    requires ValidDate(today)
    ensures DayOf(StartDay(LastQuarter, today)) == DayOf(today) - QuarterDays(today)
  {
    var (y, m, d) := (today.year, today.month, today.day);
    var (y1, m1) := PrevMonth(y, m);
    var (y2, m2) := PrevMonth(y1, m1);
    var (y3, m3) := PrevMonth(y2, m2);
    StartDayNumber(LastQuarter, today, y3, m3);
    assert DayNumber(y, m, d) - DayNumber(y3, m3, d) == DaysInMonth(y1, m1) + DaysInMonth(y2, m2) + DaysInMonth(y3, m3) by {
      PrevMonthStep(y, m, d);
      PrevMonthStep(y1, m1, d);
      PrevMonthStep(y2, m2, d);
    }
    assert QuarterDays(today) == DaysInMonth(y1, m1) + DaysInMonth(y2, m2) + DaysInMonth(y3, m3);
  }

  /** Any three consecutive months hold 89 to 92 days. */
  lemma {:induction false} QuarterLength(today: Date)
    requires ValidDate(today)
    ensures 89 <= QuarterDays(today) <= 92
  {
  }

  /** `setFullYear(getFullYear() - 1)` moves the day number back 365 days, or 366 across a 29 February. */
  lemma {:induction false} YearBack(today: Date)
    requires ValidDate(today)
    ensures DayOf(StartDay(LastYear, today)) == DayOf(today) - YearDays(today)
  {
    var (y, m, d) := (today.year, today.month, today.day);
    assert YearDays(today) == if m > 2 then DaysInYear(y) else DaysInYear(y - 1);
    StartDayNumber(LastYear, today, y - 1, m);
    YearEarlierDay(y, m, d);
  }

  /** `t => new Date(t.date) >= startDate`. */
  function OnOrAfter(start: Moment): (p: Transaction -> bool)
    requires ValidMoment(start)
    ensures forall t :: p(t) <==> DateTime(t) >= TimeOf(start)
  {
    (t: Transaction) => DateTime(t) >= TimeOf(start)
  }

  /** `filterTransactionsByDateRange`: every transaction for "all", otherwise those dated from the start on. */
  function FilterByDateRange(txs: seq<Transaction>, range: DateRange, now: Moment): seq<Transaction>
    requires ValidMoment(now)
  {
    if range == AllTime then txs else Filter(txs, OnOrAfter(RangeStart(range, now)))
  }

  /** The filter as the component runs it, with the start date computed on a `Date` object. */
  method FilterTransactions(txs: seq<Transaction>, range: DateRange, now: Moment) returns (r: seq<Transaction>)
    requires ValidMoment(now)
    ensures r == FilterByDateRange(txs, range, now)
  {
    if range == AllTime {
      return txs;
    }
    var start := StartDate(range, now);
    r := Filter(txs, OnOrAfter(start));
  }

  /**
   * The filter keeps the transactions in their order, and keeps one exactly
   * when the period is "all" or it is dated after the start day, or on the
   * start day itself when `now` is exactly midnight.
   */
  lemma {:induction false} FilterByDateRangeSpec(txs: seq<Transaction>, range: DateRange, now: Moment)
    requires ValidMoment(now)
    ensures IsSubsequence(FilterByDateRange(txs, range, now), txs)
    ensures forall t :: t in FilterByDateRange(txs, range, now) <==>
      (t in txs &&
       (range == AllTime ||
        DayOf(t.date) > DayOf(now.date) - RangeDays(range, now.date) ||
        (DayOf(t.date) == DayOf(now.date) - RangeDays(range, now.date) && now.msOfDay == 0)))
  {
    if range == AllTime {
      var keep := (t: Transaction) => true;
      FilterAll(txs, keep);
      FilterIsSubsequence(txs, keep);
    } else {
      var start := RangeStart(range, now);
      RangeStartSpan(range, now);
      FilterIsSubsequence(txs, OnOrAfter(start));
      forall t
        ensures t in FilterByDateRange(txs, range, now) <==> t in txs && OnOrAfter(start)(t)
      {
        FilterMembership(txs, OnOrAfter(start), t);
      }
    }
  }

  /** The fraction part of `String(x)` for `x` hundredths: none, one digit, or two. */
  function FractionText(f: nat): string
    requires f < 100
  {
    if f == 0 then ""
    else if f % 10 == 0 then ['.', DigitChar(f / 10)]
    else ['.', DigitChar(f / 10), DigitChar(f % 10)]
  }

  /** `String(m / 100)` for a non-negative number of cents `m`: the whole part, then the shortest fraction. */
  function UnsignedAmountText(m: nat): (s: string)
    ensures |s| >= 1 && IsDigit(s[0])
  {
    var w := NatToDecimal(m / 100);
    assert (w + FractionText(m % 100))[0] == w[0];
    w + FractionText(m % 100)
  }

  /**
   * An amount as JavaScript writes the number `cents / 100`: a sign when
   * negative, the whole part, then the shortest fraction (no trailing zero).
   */
  function AmountText(c: Cents): string
  {
    (if c < 0 then "-" else "") + UnsignedAmountText(if c < 0 then -c else c)
  }

  /** Reads a decimal with no sign: digits, then optionally a point and one or two digits, in cents. */
  function ParseUnsignedCents(s: string): Option<nat>
  {
    var n := |s|;
    if n >= 4 && s[n - 3] == '.' && AllDigits(s[..n - 3]) && AllDigits(s[n - 2..]) then
      Some(DecimalValue(s[..n - 3]) * 100 + DecimalValue(s[n - 2..]))
    else if n >= 3 && s[n - 2] == '.' && AllDigits(s[..n - 2]) && IsDigit(s[n - 1]) then
      Some(DecimalValue(s[..n - 2]) * 100 + DigitValue(s[n - 1]) * 10)
    else if n >= 1 && AllDigits(s) then
      Some(DecimalValue(s) * 100)
    else None
  }

  /** Reads a decimal with an optional leading minus, in cents. */
  function ParseCents(s: string): Option<Cents>
  {
    if s != [] && s[0] == '-' then
      match ParseUnsignedCents(s[1..])
      case Some(v) => Some(-(v as int))
      case None => None
    else ParseUnsignedCents(s)
  }

  /** A whole number reads as that many hundreds of cents. */
  lemma {:induction false} ParseWhole(w: string)
    requires |w| >= 1 && AllDigits(w)
    ensures ParseUnsignedCents(w) == Some(DecimalValue(w) * 100)
  {
    var n := |w|;
    assert n >= 3 ==> IsDigit(w[n - 3]);
    assert n >= 2 ==> IsDigit(w[n - 2]);
  }

  /** Digits, a point and one digit read as tenths. */
  lemma {:induction false} ParseTenths(w: string, c: char)
    requires |w| >= 1 && AllDigits(w) && IsDigit(c)
    ensures ParseUnsignedCents(w + ['.', c]) == Some(DecimalValue(w) * 100 + DigitValue(c) * 10)
  {
    var s := w + ['.', c];
    var n := |s|;
    assert s[n - 3] == w[|w| - 1];
    assert s[..n - 2] == w;
  }

  /** Digits, a point and two digits read as hundredths. */
  lemma {:induction false} ParseHundredths(w: string, p: string)
    requires |w| >= 1 && AllDigits(w) && |p| == 2 && AllDigits(p)
    ensures ParseUnsignedCents(w + ['.'] + p) == Some(DecimalValue(w) * 100 + DigitValue(p[0]) * 10 + DigitValue(p[1]))
  {
    DecimalValue2(p);
    var s := w + ['.'] + p;
    var n := |s|;
    assert s[n - 3] == '.';
    assert s[..n - 3] == w;
    assert s[n - 2..] == p;
    assert ParseUnsignedCents(s) == Some(DecimalValue(s[..n - 3]) * 100 + DecimalValue(s[n - 2..]));
  }

  /** Digits followed by the text of a fraction of hundredths read back as their value in cents. */
  lemma {:induction false} DigitsAndFractionRoundTrip(w: string, f: nat)
    requires |w| >= 1 && AllDigits(w) && f < 100
    ensures ParseUnsignedCents(w + FractionText(f)) == Some(DecimalValue(w) * 100 + f)
  {
    if f == 0 {
      assert w + FractionText(f) == w;
      ParseWhole(w);
    } else if f % 10 == 0 {
      var a := DigitChar(f / 10);
      assert w + FractionText(f) == w + ['.', a];
      ParseTenths(w, a);
      assert DigitValue(a) * 10 == f;
    } else {
      TwoDigitFraction(w, f);
    }
  }

  /** The two-digit case: digits, a point, then the tens and units of `f`. */
  lemma {:induction false} TwoDigitFraction(w: string, f: nat)
    requires |w| >= 1 && AllDigits(w) && 0 < f < 100 && f % 10 != 0
    ensures ParseUnsignedCents(w + FractionText(f)) == Some(DecimalValue(w) * 100 + f)
  {
    var p := [DigitChar(f / 10), DigitChar(f % 10)];
    assert w + FractionText(f) == w + ['.'] + p;
    ParseHundredths(w, p);
    assert DigitValue(p[0]) * 10 + DigitValue(p[1]) == f;
  }

  /** The unsigned part of an amount's text reads back as its magnitude. */
  lemma {:induction false} UnsignedRoundTrip(m: nat)
    ensures ParseUnsignedCents(UnsignedAmountText(m)) == Some(m)
  {
    var q, r := m / 100, m % 100;
    var w := NatToDecimal(q);
    assert DecimalValue(w) == q by {
      NatToDecimalValue(q);
    }
    DigitsAndFractionRoundTrip(w, r);
    assert UnsignedAmountText(m) == w + FractionText(r);
  }

  /** What the CSV holds as an amount reads back as exactly that amount. */
  lemma {:induction false} AmountRoundTrip(c: Cents)
    ensures ParseCents(AmountText(c)) == Some(c)
  {
    var u := UnsignedAmountText(if c < 0 then -c else c);
    UnsignedRoundTrip(if c < 0 then -c else c);
    if c < 0 {
      var s := "-" + u;
      assert AmountText(c) == s;
      assert s[0] == '-' && s[1..] == u;
    } else {
      assert AmountText(c) == u;
    }
  }

  /** Text made of digits, signs and points. */
  predicate NumericText(s: string)
  {
    forall i :: 0 <= i < |s| ==> IsDigit(s[i]) || s[i] == '-' || s[i] == '+' || s[i] == '.'
  }

  lemma {:induction false} NumericConcat(a: string, b: string)
    requires NumericText(a) && NumericText(b)
    ensures NumericText(a + b)
  {
    assert forall i :: |a| <= i < |a + b| ==> (a + b)[i] == b[i - |a|];
  }

  lemma {:induction false} NumericSafe(s: string)
    requires NumericText(s)
    ensures PlainSafe(s)
  {
  }

  /** Date texts and amount texts need no quotes. */
  lemma {:induction false} NumbersArePlainSafe(d: Date, c: Cents)
    requires ValidDate(d)
    ensures PlainSafe(IsoDate(d)) && PlainSafe(AmountText(c))
  {
    var y := d.year;
    var year := IsoYear(y);
    assert NumericText(year) by {
      if y < 0 || y > 9999 {
        NumericConcat(if y < 0 then "-" else "+", PadDigits(if y < 0 then -y else y, 6));
      }
    }
    var mm, dd := Pad2(d.month), Pad2(d.day);
    NumericConcat(year, "-");
    NumericConcat(year + "-", mm);
    NumericConcat(year + "-" + mm, "-");
    NumericConcat(year + "-" + mm + "-", dd);
    NumericSafe(IsoDate(d));
    var m: nat := if c < 0 then -c else c;
    var f := m % 100;
    var frac := FractionText(f);
    assert NumericText(frac) by {
      assert IsDigit(DigitChar(f / 10)) && IsDigit(DigitChar(f % 10));
    }
    NumericConcat(NatToDecimal(m / 100), frac);
    NumericConcat(if c < 0 then "-" else "", UnsignedAmountText(m));
    NumericSafe(AmountText(c));
  }

  /** The header record. */
  function HeaderCells(): seq<Cell>
  {
    [Plain("Date"), Plain("Type"), Plain("Category"), Plain("Description"), Plain("Amount")]
  }

  /** A transaction's record: only the description is quoted, with its quotes doubled. */
  function CsvCells(t: Transaction): seq<Cell>
  {
    [Plain(IsoDate(t.date)), Plain(t.kind), Plain(t.category), Quoted(t.description), Plain(AmountText(t.amount))]
  }

  /** `csvContent`: the header line and one line per filtered transaction, joined by line feeds. */
  function CsvContent(txs: seq<Transaction>, range: DateRange, now: Moment): string
    requires ValidMoment(now)
  {
    EncodeDocument([HeaderCells()] + MapSeq(FilterByDateRange(txs, range, now), CsvCells))
  }

  /** The fields a reader finds in a transaction's record. */
  function CsvFields(t: Transaction): seq<string>
  {
    [IsoDate(t.date), t.kind, t.category, t.description, AmountText(t.amount)]
  }

  /** Types and categories are written unquoted: they must hold no comma, quote or line feed to read back. */
  predicate UnquotedFieldsSafe(txs: seq<Transaction>)
  {
    forall i :: 0 <= i < |txs| ==> PlainSafe(txs[i].kind) && PlainSafe(txs[i].category)
  }

  /** The filter keeps only transactions of the input, so it keeps their safe types and categories. */
  lemma {:induction false} FilteredFieldsSafe(txs: seq<Transaction>, range: DateRange, now: Moment)
    requires ValidMoment(now) && UnquotedFieldsSafe(txs)
    ensures UnquotedFieldsSafe(FilterByDateRange(txs, range, now))
  {
    var rows := FilterByDateRange(txs, range, now);
    FilterByDateRangeSpec(txs, range, now);
    forall i | 0 <= i < |rows|
      ensures PlainSafe(rows[i].kind) && PlainSafe(rows[i].category)
    {
      assert rows[i] in txs;
    }
  }

  /** The header and the transactions' records hold a field each, and every field reads back. */
  lemma {:induction false} CsvRecordsReadable(rows: seq<Transaction>)
    requires UnquotedFieldsSafe(rows)
    ensures AllReadable([HeaderCells()] + MapSeq(rows, CsvCells))
  {
    var records := [HeaderCells()] + MapSeq(rows, CsvCells);
    forall k | 0 <= k < |records|
      ensures |records[k]| >= 1 && forall i :: 0 <= i < |records[k]| ==> Readable(records[k][i])
    {
      if k > 0 {
        var t := rows[k - 1];
        assert records[k] == CsvCells(t);
        NumbersArePlainSafe(t.date, t.amount);
      }
    }
  }

  /** The texts of a transaction's cells are its CSV fields. */
  lemma {:induction false} CsvCellTexts(t: Transaction)
    ensures RecordTexts(CsvCells(t)) == CsvFields(t)
  {
    var r := RecordTexts(CsvCells(t));
    assert |r| == 5;
    assert r[0] == IsoDate(t.date) && r[1] == t.kind && r[2] == t.category;
    assert r[3] == t.description && r[4] == AmountText(t.amount);
  }

  /** The header reads back as the column names. */
  lemma {:induction false} HeaderTexts()
    ensures RecordTexts(HeaderCells()) == ["Date", "Type", "Category", "Description", "Amount"]
  {
    var h := RecordTexts(HeaderCells());
    assert |h| == 5 && h[0] == "Date" && h[1] == "Type" && h[2] == "Category";
    assert h[3] == "Description" && h[4] == "Amount";
  }

  /** The texts of the written records: the column names, then each transaction's fields. */
  lemma {:induction false} CsvRecordTexts(rows: seq<Transaction>)
    ensures MapSeq([HeaderCells()] + MapSeq(rows, CsvCells), RecordTexts)
         == [["Date", "Type", "Category", "Description", "Amount"]] + MapSeq(rows, CsvFields)
  {
    forall t
      ensures RecordTexts(CsvCells(t)) == CsvFields(t)
    {
      CsvCellTexts(t);
    }
    DocumentTexts(HeaderCells(), rows, CsvCells, CsvFields);
    HeaderTexts();
  }

  /**
   * Reading the CSV back gives the header and then, for each filtered
   * transaction in order, its date, type, category, description (whatever
   * commas, quotes or line feeds it holds) and amount, one record each.
   */
  lemma {:induction false} CsvRoundTrip(txs: seq<Transaction>, range: DateRange, now: Moment)
    requires ValidMoment(now) && UnquotedFieldsSafe(txs)
    ensures ReadDocument(CsvContent(txs, range, now))
         == [["Date", "Type", "Category", "Description", "Amount"]] + MapSeq(FilterByDateRange(txs, range, now), CsvFields)
  {
    var rows := FilterByDateRange(txs, range, now);
    FilteredFieldsSafe(txs, range, now);
    CsvRecordsReadable(rows);
    ReadEncodedDocument([HeaderCells()] + MapSeq(rows, CsvCells));
    CsvRecordTexts(rows);
  }

  /** A row of the PDF table. */
  datatype ReportRow = ReportRow(date: string, kind: string, category: string, description: string, amount: Cents)

  /** The PDF report: its period line, its summary and its table. */
  datatype Report = Report(period: string, summary: Totals, rows: seq<ReportRow>)

  /** "Report Period: " and the period's name with a capital first letter. */
  function PeriodLabel(range: DateRange): (s: string)
    ensures range == AllTime ==> s == "Report Period: All"
    ensures range == LastMonth ==> s == "Report Period: Month"
    ensures range == LastQuarter ==> s == "Report Period: Quarter"
    ensures range == LastYear ==> s == "Report Period: Year"
  {
    "Report Period: " + Capitalize(RangeName(range))
  }

  /** A table row: the type with a capital first letter, the other fields as stored. */
  function ReportRowOf(t: Transaction): ReportRow
  {
    ReportRow(IsoDate(t.date), Capitalize(t.kind), t.category, t.description, t.amount)
  }

  /**
   * `exportToPDF`: the period line, income, expenses and net balance of the
   * filtered transactions, and one table row per filtered transaction, in
   * order.
   */
  function PdfReport(txs: seq<Transaction>, range: DateRange, now: Moment): (r: Report)
    requires ValidMoment(now)
    ensures var rows := FilterByDateRange(txs, range, now);
      && r.period == PeriodLabel(range)
      && r.summary.income == TypeTotal(rows, "income") && r.summary.expenses == TypeTotal(rows, "expense")
      && r.summary.balance == r.summary.income - r.summary.expenses
      && |r.rows| == |rows| && forall i :: 0 <= i < |rows| ==> r.rows[i] == ReportRowOf(rows[i])
  {
    var rows := FilterByDateRange(txs, range, now);
    Report(PeriodLabel(range), CalculateTotals(rows), MapSeq(rows, ReportRowOf))
  }

  /** Over all time the report's summary is the dashboard's totals of the whole list. */
  lemma {:induction false} PdfSummaryAllTime(txs: seq<Transaction>, now: Moment)
    requires ValidMoment(now)
    ensures PdfReport(txs, AllTime, now).summary == CalculateTotals(txs)
  {
    assert FilterByDateRange(txs, AllTime, now) == txs;
  }

  /** A transaction's table row and its CSV record carry the same date, type, category, description and amount. */
  lemma {:induction false} RowMatchesFields(t: Transaction)
    ensures var row, fields := ReportRowOf(t), CsvFields(t);
      && row.date == fields[0] && row.kind == Capitalize(fields[1]) && row.category == fields[2]
      && row.description == fields[3] && ParseCents(fields[4]) == Some(row.amount)
  {
    AmountRoundTrip(t.amount);
  }

  /**
   * The PDF table and the CSV list the same transactions in the same order:
   * row `i` of the table carries the date, category, description and type
   * (capitalised) that record `i + 1` of the CSV reads back as, and the
   * amount whose CSV text reads back as it.
   */
  lemma {:induction false} ReportAgreesWithCsv(txs: seq<Transaction>, range: DateRange, now: Moment, i: int)
    requires ValidMoment(now) && UnquotedFieldsSafe(txs)
    requires 0 <= i < |PdfReport(txs, range, now).rows|
    ensures var doc := ReadDocument(CsvContent(txs, range, now));
      i + 1 < |doc| && |doc[i + 1]| == 5 &&
      var row, fields := PdfReport(txs, range, now).rows[i], doc[i + 1];
      && row.date == fields[0] && row.kind == Capitalize(fields[1]) && row.category == fields[2]
      && row.description == fields[3] && ParseCents(fields[4]) == Some(row.amount)
  {
    var rows := FilterByDateRange(txs, range, now);
    CsvRecordAt(txs, range, now, i);
    assert PdfReport(txs, range, now).rows[i] == ReportRowOf(rows[i]);
    RowMatchesFields(rows[i]);
  }

  /** Record `i + 1` of the CSV, read back, is the fields of filtered transaction `i`. */
  lemma {:induction false} CsvRecordAt(txs: seq<Transaction>, range: DateRange, now: Moment, i: int)
    requires ValidMoment(now) && UnquotedFieldsSafe(txs)
    requires 0 <= i < |FilterByDateRange(txs, range, now)|
    ensures var doc, rows := ReadDocument(CsvContent(txs, range, now)), FilterByDateRange(txs, range, now);
      |doc| == |rows| + 1 && doc[i + 1] == CsvFields(rows[i])
  {
    CsvRoundTrip(txs, range, now);
  }

  /** The two export formats. */
  datatype ExportKind = CsvFile | PdfFile

  /** A notification: title, text, and whether it is shown as an error. */
  datatype Toast = Toast(title: string, description: string, destructive: bool)

  /** `handleExport`'s notification, after the export ran or threw. */
  function ExportToast(kind: ExportKind, failed: bool): (t: Toast)
    ensures t.destructive <==> failed
    ensures !failed ==>
      (t.title == "Export successful" &&
       t.description == "Your data has been exported as " + (if kind == CsvFile then "CSV" else "PDF"))
    ensures failed ==> t.title == "Export failed" && t.description == "There was an error exporting your data"
  {
    if failed then Toast("Export failed", "There was an error exporting your data", true)
    else Toast("Export successful", "Your data has been exported as " + (if kind == CsvFile then "CSV" else "PDF"), false)
  }
}
