/** The calendar arithmetic behind the timestamps the scheduler compares:
    a proleptic Gregorian date and time of day, its day number counted from
    1 January of year 1 (day 1, a Monday), its weekday, and the step of one
    hour that the tests take with `timedelta(hours=1)`. */
module Calendar {

  /** A naive (time-zone free) timestamp, field by field. */
  datatype DateTime = DateTime(year: int, month: int, day: int,
                               hour: int, minute: int, second: int, microsecond: int)
  {
    /** The ranges a timestamp's fields keep (the year has no upper bound here). */
    predicate Valid() {
      1 <= year && 1 <= month <= 12 && 1 <= day <= DaysInMonth(year, month) &&
      0 <= hour < 24 && 0 <= minute < 60 && 0 <= second < 60 && 0 <= microsecond < 1000000
    }
  }

  datatype Weekday = Monday | Tuesday | Wednesday | Thursday | Friday | Saturday | Sunday

  /** A timestamp composed from a date and the hour and minute of the day,
      as `"%Y/%m/%d %H:%M"` describes it (seconds and microseconds zero). */
  function At(year: int, month: int, day: int, hour: int, minute: int): (t: DateTime)
    ensures t.second == 0 && t.microsecond == 0
  {
    DateTime(year, month, day, hour, minute, 0, 0)
  }

  predicate IsLeap(year: int) {
    year % 4 == 0 && (year % 100 != 0 || year % 400 == 0)
  }

  function DaysInMonth(year: int, month: int): int {
    if month == 2 then (if IsLeap(year) then 29 else 28)
    else if month == 4 || month == 6 || month == 9 || month == 11 then 30
    else 31
  }

  function DaysInYear(year: int): int {
    if IsLeap(year) then 366 else 365
  }

  /** Days in the years before `year`. */
  function DaysBeforeYear(year: int): int {
    var y := year - 1;
    y * 365 + y / 4 - y / 100 + y / 400
  }

  /** Days in the months of `year` before `month`. */
  function DaysBeforeMonth(year: int, month: int): int {
    var leapDay := if month > 2 && IsLeap(year) then 1 else 0;
    leapDay + match month
      case 1 => 0    case 2 => 31   case 3 => 59   case 4 => 90
      case 5 => 120  case 6 => 151  case 7 => 181  case 8 => 212
      case 9 => 243  case 10 => 273 case 11 => 304 case _ => 334
  }

  /** The day number of the timestamp's date: 1 January of year 1 is day 1. */
  function Ordinal(t: DateTime): int {
    DaysBeforeYear(t.year) + DaysBeforeMonth(t.year, t.month) + t.day
  }

  function WeekdayFromIndex(i: int): Weekday
    requires 0 <= i < 7
  {
    match i
    case 0 => Monday case 1 => Tuesday case 2 => Wednesday case 3 => Thursday
    case 4 => Friday case 5 => Saturday case _ => Sunday
  }

  /** The weekday of the timestamp's date: day 1 is a Monday, so Mondays are
      the day numbers one past a multiple of seven and Sundays the multiples. */
  function WeekdayOf(t: DateTime): (w: Weekday)
    ensures w == Monday <==> Ordinal(t) % 7 == 1
    ensures w == Sunday <==> Ordinal(t) % 7 == 0
  {
    WeekdayFromIndex((Ordinal(t) + 6) % 7)
  }

  function NextWeekday(w: Weekday): Weekday {
    match w
    case Monday => Tuesday case Tuesday => Wednesday case Wednesday => Thursday
    case Thursday => Friday case Friday => Saturday case Saturday => Sunday
    case Sunday => Monday
  }

  /** The same time of day on the following calendar day. */
  function NextDay(t: DateTime): (n: DateTime)
    requires t.Valid()
    ensures n.Valid()
    ensures n.hour == t.hour && n.minute == t.minute
    ensures n.second == t.second && n.microsecond == t.microsecond
  {
    if t.day < DaysInMonth(t.year, t.month) then t.(day := t.day + 1)
    else if t.month < 12 then t.(month := t.month + 1, day := 1)
    else t.(year := t.year + 1, month := 1, day := 1)
  }

  /** The timestamp one hour later, rolling over into the next day after 23h:
      counted in hours from the start of day 1, it is exactly one hour on. */
  function PlusOneHour(t: DateTime): (n: DateTime)
    requires t.Valid()
    ensures n.Valid()
    ensures Ordinal(n) * 24 + n.hour == Ordinal(t) * 24 + t.hour + 1
    ensures n.minute == t.minute && n.second == t.second && n.microsecond == t.microsecond
  {
    if t.hour < 23 then t.(hour := t.hour + 1)
    else NextDayOrdinal(t); NextDay(t).(hour := 0)
  }

  /** Moving to the next day adds exactly one to the day number, across
      month ends, year ends and leap days alike. */
  lemma {:induction false} NextDayOrdinal(t: DateTime)
    requires t.Valid()
    ensures Ordinal(NextDay(t)) == Ordinal(t) + 1
  {
    if t.day < DaysInMonth(t.year, t.month) {
    } else if t.month < 12 {
      assert DaysBeforeMonth(t.year, t.month + 1)
          == DaysBeforeMonth(t.year, t.month) + DaysInMonth(t.year, t.month);
    } else {
      DaysBeforeNextYear(t.year);
    }
  }

  lemma DaysBeforeNextYear(year: int)
    requires 1 <= year
    ensures DaysBeforeYear(year + 1) == DaysBeforeYear(year) + DaysInYear(year)
  {
    DivStep4(year);
    DivStep100(year);
    DivStep400(year);
    Multiple400Of100(year);
    Multiple100Of4(year);
  }

  lemma DivStep4(y: int)
    ensures y / 4 - (y - 1) / 4 == if y % 4 == 0 then 1 else 0
  {
  }

  lemma DivStep100(y: int)
    ensures y / 100 - (y - 1) / 100 == if y % 100 == 0 then 1 else 0
  {
  }

  lemma DivStep400(y: int)
    ensures y / 400 - (y - 1) / 400 == if y % 400 == 0 then 1 else 0
  {
  }

  lemma Multiple400Of100(y: int)
    ensures y % 400 == 0 ==> y % 100 == 0
  {
  }

  lemma Multiple100Of4(y: int)
    ensures y % 100 == 0 ==> y % 4 == 0
  {
  }

  lemma ModSevenStep(n: int)
    ensures (n + 1) % 7 == if n % 7 == 6 then 0 else n % 7 + 1
  {
  }

  /** Consecutive days fall on consecutive weekdays. */
  lemma NextDayWeekday(t: DateTime)
    requires t.Valid()
    ensures WeekdayOf(NextDay(t)) == NextWeekday(WeekdayOf(t))
  {
    NextDayOrdinal(t);
    ModSevenStep(Ordinal(t) + 6);
  }

  /** One hour later is a different timestamp with the same minute, second and
      microsecond, so a timestamp on the hour stays on the hour. */
  lemma PlusOneHourKeepsSubHour(t: DateTime)
    requires t.Valid()
    ensures PlusOneHour(t) != t
    ensures PlusOneHour(t).minute == t.minute && PlusOneHour(t).second == t.second
    ensures PlusOneHour(t).microsecond == t.microsecond
  {
  }

  /** The three dates the scenarios use: 1 August 2025 is a Friday,
      3 August 2025 a Sunday and 4 August 2025 a Monday. */
  lemma August2025Weekdays(hour: int, minute: int)
    ensures WeekdayOf(At(2025, 8, 1, hour, minute)) == Friday
    ensures WeekdayOf(At(2025, 8, 3, hour, minute)) == Sunday
    ensures WeekdayOf(At(2025, 8, 4, hour, minute)) == Monday
  {
    assert DaysBeforeYear(2025) == 739251;
    assert Ordinal(At(2025, 8, 1, hour, minute)) == 739464;
    assert Ordinal(At(2025, 8, 3, hour, minute)) == 739466;
    assert Ordinal(At(2025, 8, 4, hour, minute)) == 739467;
  }
}
