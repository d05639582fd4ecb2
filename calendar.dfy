// The part of JavaScript's Date the dashboard uses, on day numbers (days
// since 1970-01-01) in the proleptic Gregorian calendar, read in UTC:
// the first day of a month, the length of a month, the month a day falls
// in, and the weekday (`getDay`, 0 = Sunday).
module Calendar {

  type MonthNumber = m: int | 1 <= m <= 12 witness 1

  datatype YearMonth = YearMonth(year: int, month: MonthNumber)

  predicate IsLeap(y: int)
  {
    y % 4 == 0 && (y % 100 != 0 || y % 400 == 0)
  }

  function DaysInMonth(ym: YearMonth): int
  {
    match ym.month
    case 2 => if IsLeap(ym.year) then 29 else 28
    case 4 => 30
    case 6 => 30
    case 9 => 30
    case 11 => 30
    case _ => 31
  }

  function Next(ym: YearMonth): YearMonth
  {
    if ym.month == 12 then YearMonth(ym.year + 1, 1) else YearMonth(ym.year, ym.month + 1)
  }

  function Prev(ym: YearMonth): YearMonth
  {
    if ym.month == 1 then YearMonth(ym.year - 1, 12) else YearMonth(ym.year, ym.month - 1)
  }

  /** Months counted on one line, so that Next is +1. */
  function Index(ym: YearMonth): int
  {
    12 * ym.year + ym.month - 1
  }

  /** Leap years strictly before year `y`, counted from a fixed origin. */
  function LeapsBefore(y: int): int
  {
    (y - 1) / 4 - (y - 1) / 100 + (y - 1) / 400
  }

  function DaysBeforeYear(y: int): int
  {
    365 * (y - 1970) + LeapsBefore(y) - LeapsBefore(1970)
  }

  function DaysBeforeMonth(ym: YearMonth): int
  {
    var leapDay := if ym.month > 2 && IsLeap(ym.year) then 1 else 0;
    leapDay + match ym.month
      case 1 => 0
      case 2 => 31
      case 3 => 59
      case 4 => 90
      case 5 => 120
      case 6 => 151
      case 7 => 181
      case 8 => 212
      case 9 => 243
      case 10 => 273
      case 11 => 304
      case 12 => 334
  }

  /** The day number of the first day of the month. */
  function MonthStart(ym: YearMonth): int
  {
    DaysBeforeYear(ym.year) + DaysBeforeMonth(ym)
  }

  /** The day number of day `d` of the month (`new Date(y, m, d)`). */
  function DayOf(ym: YearMonth, d: int): int
  {
    MonthStart(ym) + d - 1
  }

  lemma YearLength(y: int)
    ensures DaysBeforeYear(y + 1) - DaysBeforeYear(y) == if IsLeap(y) then 366 else 365
  {
    assert y / 4 - (y - 1) / 4 == if y % 4 == 0 then 1 else 0;
    assert y / 100 - (y - 1) / 100 == if y % 100 == 0 then 1 else 0;
    assert y / 400 - (y - 1) / 400 == if y % 400 == 0 then 1 else 0;
  }

  /** Consecutive months are DaysInMonth apart. */
  lemma MonthStartNext(ym: YearMonth)
    ensures MonthStart(Next(ym)) == MonthStart(ym) + DaysInMonth(ym)
    ensures 28 <= DaysInMonth(ym) <= 31
  {
    if ym.month == 12 { YearLength(ym.year); }
  }

  lemma EpochMonthStart()
    ensures MonthStart(YearMonth(1970, 1)) == 0
  {
  }

  lemma {:induction false} MonthStartMonotone(a: YearMonth, b: YearMonth)
    requires Index(a) < Index(b)
    ensures MonthStart(Next(a)) <= MonthStart(b)
    decreases Index(b) - Index(a)
  {
    if Index(Next(a)) < Index(b) {
      MonthStartNext(Next(a));
      MonthStartMonotone(Next(a), b);
    } else {
      assert Next(a) == b;
    }
  }

  predicate InMonth(ym: YearMonth, d: int)
  {
    MonthStart(ym) <= d < MonthStart(Next(ym))
  }

  /** Walk month by month from `ym` towards the month holding `d`. */
  function Seek(ym: YearMonth, d: int): (r: YearMonth)
    ensures InMonth(r, d)
    decreases if d < MonthStart(ym) then MonthStart(ym) - d + 32 else d - MonthStart(ym)
  {
    MonthStartNext(ym);
    if d < MonthStart(ym) then
      MonthStartNext(Prev(ym));
      assert Next(Prev(ym)) == ym;
      Seek(Prev(ym), d)
    else if d >= MonthStart(Next(ym)) then
      Seek(Next(ym), d)
    else
      ym
  }

  /** The month a day falls in (`getFullYear`, `getMonth`). */
  function MonthOf(d: int): (ym: YearMonth)
    ensures InMonth(ym, d)
  {
    Seek(YearMonth(1970, 1), d)
  }

  /** Each day falls in exactly one month. */
  lemma MonthOfUnique(ym: YearMonth, d: int)
    requires InMonth(ym, d)
    ensures MonthOf(d) == ym
  {
    var m := MonthOf(d);
    if Index(m) < Index(ym) {
      MonthStartMonotone(m, ym);
    } else if Index(ym) < Index(m) {
      MonthStartMonotone(ym, m);
    }
  }

  /** `getDay`: 0 is Sunday; 1970-01-01 was a Thursday. */
  function Weekday(d: int): (w: int)
    ensures 0 <= w < 7
  {
    (d + 4) % 7
  }
}
