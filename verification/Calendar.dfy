/**
 Days since 1970-01-01 as dates of the proleptic Gregorian calendar, by the
 era arithmetic the audit log and the migration generator share.
 */
module Calendar {

  datatype Date = Date(year: int, month: int, day: int)

  // ----- The calendar itself -----

  predicate IsLeap(y: int) {
    y % 4 == 0 && (y % 100 != 0 || y % 400 == 0)
  }

  function DaysInMonth(y: int, m: int): int {
    if m == 2 then (if IsLeap(y) then 29 else 28)
    else if m == 4 || m == 6 || m == 9 || m == 11 then 30
    else 31
  }

  predicate IsDate(d: Date) {
    1 <= d.month <= 12 && 1 <= d.day <= DaysInMonth(d.year, d.month)
  }

  /** The date of the day after. */
  function Tomorrow(d: Date): Date {
    if d.day < DaysInMonth(d.year, d.month) then d.(day := d.day + 1)
    else if d.month < 12 then Date(d.year, d.month + 1, 1)
    else Date(d.year + 1, 1, 1)
  }

  predicate Before(a: Date, b: Date) {
    a.year < b.year || (a.year == b.year && (a.month < b.month || (a.month == b.month && a.day < b.day)))
  }

  // ----- From days to dates -----

  /** The year within its era of 400, which starts in March, of a day of the era. */
  function YearOfEra(doe: int): int {
    (doe - doe / 1460 + doe / 36524 - doe / 146096) / 365
  }

  /** The days of an era before a year of it. */
  function YearStart(yoe: int): int {
    365 * yoe + yoe / 4 - yoe / 100
  }

  /** The days of a year, counted from March, before a month of it. */
  function MonthStart(mp: int): int {
    (153 * mp + 2) / 5
  }

  /** The date of a day, as the migration generator computes it. */
  function CivilFromDays(days: int): Date {
    var z := days + 719468;
    var era := z / 146097;
    var doe := z % 146097;
    var yoe := YearOfEra(doe);
    var year := yoe + era * 400;
    var doy := doe - (365 * yoe + yoe / 4 - yoe / 100);
    var mp := (5 * doy + 2) / 153;
    var day := doy - (153 * mp + 2) / 5 + 1;
    var month := if mp < 10 then mp + 3 else mp - 9;
    Date(year + (if month <= 2 then 1 else 0), month, day)
  }

  /** The same, as the audit log computes it. */
  function CivilOfLog(days: int): Date {
    var z := days + 719468;
    var era := z / 146097;
    var doe := z % 146097;
    var yoe := (doe - doe / 1460 + doe / 36524 - doe / 146096) / 365;
    var doy := doe - (365 * yoe + yoe / 4 - yoe / 100);
    var mp := (5 * doy + 2) / 153;
    var day := doy - (153 * mp + 2) / 5 + 1;
    var month := if mp < 10 then mp + 3 else mp - 9;
    var year := yoe + era * 400 + if month <= 2 then 1 else 0;
    Date(year, month, day)
  }

  lemma TheTwoAgree(days: int)
    ensures CivilOfLog(days) == CivilFromDays(days)
  {}

  // ----- From dates to days -----

  /** Years, and months within them, counted from March. */
  function MarchYear(d: Date): int {
    if d.month <= 2 then d.year - 1 else d.year
  }

  function MarchMonth(d: Date): int {
    if d.month <= 2 then d.month + 9 else d.month - 3
  }

  /** The number of a date: how many days after 1970-01-01 it is. */
  function DayNumber(d: Date): int {
    var y := MarchYear(d);
    y / 400 * 146097 + YearStart(y % 400) + MonthStart(MarchMonth(d)) + d.day - 1 - 719468
  }

  // ----- The two are inverse -----

  /** Within a century that starts with a leap day, the quotients are bounded linearly. */
  lemma YearOfCentury(doe: int, a: int, b: int, y: int, t: int)
    requires 0 <= b < 4 && 36524 * b <= doe < 36524 * (b + 1)
    requires 1460 * a <= doe < 1460 * a + 1460
    requires doe - a + b == 365 * y + t && 0 <= t < 365
    ensures 100 * b <= y < 100 * b + 100
  {}

  lemma YearHasBegun(doe: int, a: int, b: int, y: int, t: int, p: int)
    requires 0 <= b < 4 && 36524 * b <= doe < 36524 * (b + 1)
    requires 1460 * a <= doe < 1460 * a + 1460
    requires doe - a + b == 365 * y + t && 0 <= t < 365
    requires 4 * p <= y < 4 * p + 4 && 100 * b <= y < 100 * b + 100
    ensures 365 * y + p - b <= doe
  {}

  lemma YearHasNotEnded(doe: int, a: int, b: int, y: int, t: int, p: int)
    requires 0 <= b < 4 && 36524 * b <= doe < 36524 * (b + 1)
    requires 1460 * a <= doe < 1460 * a + 1460
    requires doe - a + b == 365 * y + t && 0 <= t < 365
    requires 4 * p <= y + 1 < 4 * p + 4 && 100 * b <= y < 100 * b + 99
    ensures doe < 365 * (y + 1) + p - b
  {}

  lemma YearOfEraIsRight(doe: int)
    requires 0 <= doe < 146097
    ensures 0 <= YearOfEra(doe) < 400
    ensures YearStart(YearOfEra(doe)) <= doe
    ensures YearOfEra(doe) < 399 ==> doe < YearStart(YearOfEra(doe) + 1)
  {
    if doe < 146096 {
      YearOfDay(doe, doe / 1460, doe / 36524);
    }
  }

  lemma YearOfDay(doe: int, a: int, b: int)
    requires 0 <= doe < 146096 && a == doe / 1460 && b == doe / 36524
    ensures 0 <= YearOfEra(doe) < 400
    ensures YearStart(YearOfEra(doe)) <= doe
    ensures YearOfEra(doe) < 399 ==> doe < YearStart(YearOfEra(doe) + 1)
  {
    var y := YearOfEra(doe);
    var x := doe - a + b;
    assert y == x / 365;
    YearOfCentury(doe, a, b, y, x % 365);
    CenturyOf(y, b);
    YearHasBegun(doe, a, b, y, x % 365, y / 4);
    if y < 100 * b + 99 {
      CenturyOf(y + 1, b);
      YearHasNotEnded(doe, a, b, y, x % 365, (y + 1) / 4);
    } else {
      assert (y + 1) / 4 == 25 * (b + 1) && (y + 1) / 100 == b + 1;
    }
  }

  lemma CenturyOf(y: int, b: int)
    requires 100 * b <= y < 100 * b + 100
    ensures y / 100 == b
  {}

  lemma MonthIsRight(doy: int)
    requires 0 <= doy < 366
    ensures var mp := (5 * doy + 2) / 153;
            0 <= mp < 12 && MonthStart(mp) <= doy && (mp < 11 ==> doy < MonthStart(mp + 1))
  {}

  /** The last year of an era is a day longer than its start and the next multiple suggest. */
  function YearEnd(yoe: int): int {
    if yoe == 399 then 146097 else YearStart(yoe + 1)
  }

  /** The parts of a day: era, year of the era, month from March, and the days before each. */
  lemma Parts(days: int)
    ensures var z := days + 719468;
            var doe := z % 146097;
            var yoe := YearOfEra(doe);
            var doy := doe - YearStart(yoe);
            var mp := (5 * doy + 2) / 153;
            && z == z / 146097 * 146097 + doe
            && 0 <= yoe < 400 && YearStart(yoe) <= doe < YearEnd(yoe)
            && 0 <= doy < 366 && 0 <= mp < 12 && MonthStart(mp) <= doy && (mp < 11 ==> doy < MonthStart(mp + 1))
            && CivilFromDays(days) == MarchDate(z / 146097 * 400 + yoe, mp, doy - MonthStart(mp) + 1)
  {
    var doe := (days + 719468) % 146097;
    hide IsLeap;
    YearOfEraIsRight(doe);
    var yoe := YearOfEra(doe);
    YearLength(yoe);
    MonthIsRight(doe - YearStart(yoe));
  }

  /** The date with a year and month counted from March. */
  function MarchDate(y: int, mp: int, day: int): Date {
    if mp < 10 then Date(y, mp + 3, day) else Date(y + 1, mp - 9, day)
  }

  /** A year counted from March has a leap day exactly if the year its February is in is a leap year. */
  lemma YearLength(yoe: int)
    requires 0 <= yoe < 400
    ensures YearEnd(yoe) - YearStart(yoe) == if IsLeap(yoe + 1) then 366 else 365
  {
    if yoe < 399 {
      Quotient4(yoe, (yoe + 1) % 4 == 0);
      Quotient100(yoe, (yoe + 1) % 100 == 0);
      Hundreds(yoe + 1);
    }
  }

  lemma Quotient4(n: int, step: bool)
    requires step <==> (n + 1) % 4 == 0
    ensures (n + 1) / 4 == n / 4 + if step then 1 else 0
  {}

  lemma Quotient100(n: int, step: bool)
    requires step <==> (n + 1) % 100 == 0
    ensures (n + 1) / 100 == n / 100 + if step then 1 else 0
  {}

  lemma Hundreds(n: int)
    requires 0 < n < 400
    ensures (n % 100 == 0 ==> n % 4 == 0) && n % 400 != 0
  {}

  lemma MonthLength(mp: int)
    requires 0 <= mp < 11
    ensures MonthStart(mp + 1) - MonthStart(mp) == DaysInMonth(1, if mp < 10 then mp + 3 else mp - 9)
  {}

  lemma LeapYearsRepeat(era: int, n: int)
    ensures IsLeap(era * 400 + n) == IsLeap(n)
  {
    Every4(n, 100 * era);
    Every100(n, 4 * era);
    Every400(n, era);
  }

  lemma Every4(n: int, k: int)
    ensures (n + 4 * k) % 4 == n % 4
  {}

  lemma Every100(n: int, k: int)
    ensures (n + 100 * k) % 100 == n % 100
  {}

  lemma Every400(n: int, k: int)
    ensures (n + 400 * k) % 400 == n % 400
  {}

  lemma EraOf(era: int, yoe: int)
    requires 0 <= yoe < 400
    ensures (era * 400 + yoe) / 400 == era && (era * 400 + yoe) % 400 == yoe
  {}

  /** Every day has a date of the calendar. */
  lemma EveryDayHasADate(days: int)
    ensures IsDate(CivilFromDays(days))
  {
    hide CivilFromDays, YearOfEra;
    Parts(days);
    var z := days + 719468;
    var yoe := YearOfEra(z % 146097);
    var doy := z % 146097 - YearStart(yoe);
    DateInYear(z / 146097, yoe, doy, (5 * doy + 2) / 153);
  }

  lemma DateInYear(era: int, yoe: int, doy: int, mp: int)
    requires 0 <= yoe < 400 && 0 <= doy < YearEnd(yoe) - YearStart(yoe)
    requires 0 <= mp < 12 && MonthStart(mp) <= doy && (mp < 11 ==> doy < MonthStart(mp + 1))
    ensures IsDate(MarchDate(era * 400 + yoe, mp, doy - MonthStart(mp) + 1))
  {
    YearLength(yoe);
    LeapYearsRepeat(era, yoe + 1);
    if mp < 11 {
      MonthLength(mp);
    }
    hide IsLeap;
  }

  /** Counting back: the number of a day's date is the day. */
  lemma DayNumberUndoesCivil(days: int)
    ensures DayNumber(CivilFromDays(days)) == days
  {
    hide CivilFromDays, YearOfEra;
    Parts(days);
    var z := days + 719468;
    var yoe := YearOfEra(z % 146097);
    EraOf(z / 146097, yoe);
  }

  // ----- The numbering of dates -----

  /** The days before a year counted from March. */
  function YearBase(y: int): int {
    y / 400 * 146097 + YearStart(y % 400)
  }

  lemma NextYearBase(y: int)
    ensures YearBase(y + 1) == YearBase(y) + if IsLeap(y + 1) then 366 else 365
  {
    var era, yoe := y / 400, y % 400;
    YearLength(yoe);
    LeapYearsRepeat(era, yoe + 1);
    assert y + 1 == era * 400 + (yoe + 1);
    if yoe < 399 {
      EraOf(era, yoe + 1);
    } else {
      EraOf(era + 1, 0);
    }
  }

  /** A date lies in its year counted from March. */
  lemma DateLiesInItsYear(d: Date)
    requires IsDate(d)
    ensures 0 <= MarchMonth(d) < 12
    ensures YearBase(MarchYear(d)) <= DayNumber(d) + 719468 < YearBase(MarchYear(d) + 1)
    ensures MarchMonth(d) < 11 ==> DayNumber(d) + 719468 < YearBase(MarchYear(d)) + MonthStart(MarchMonth(d) + 1)
  {
    NextYearBase(MarchYear(d));
    var mp := MarchMonth(d);
    if mp < 11 {
      MonthLength(mp);
    }
    hide YearBase, YearStart;
    MonthBound(mp);
  }

  lemma MonthBound(mp: int)
    requires 0 <= mp < 12
    ensures 0 <= MonthStart(mp) && (mp < 11 ==> MonthStart(mp + 1) <= 337) && MonthStart(11) == 337
  {}

  lemma {:induction false} YearBaseGrows(a: int, b: int)
    requires a <= b
    ensures YearBase(a) <= YearBase(b)
    decreases b - a
  {
    if a < b {
      YearBaseGrows(a, b - 1);
      NextYearBase(b - 1);
    }
  }

  /** Later dates have higher numbers. */
  lemma DayNumberGrows(a: Date, b: Date)
    requires IsDate(a) && IsDate(b) && Before(a, b)
    ensures DayNumber(a) < DayNumber(b)
  {
    DateLiesInItsYear(a);
    DateLiesInItsYear(b);
    hide IsDate;
    if MarchYear(a) < MarchYear(b) {
      YearBaseGrows(MarchYear(a) + 1, MarchYear(b));
    } else if MarchMonth(a) < MarchMonth(b) {
      MonthsGrow(MarchMonth(a) + 1, MarchMonth(b));
    }
  }

  lemma MonthsGrow(a: int, b: int)
    requires a <= b
    ensures MonthStart(a) <= MonthStart(b)
  {}

  /** No two dates have the same number, and every number is some date's: the two maps are inverse. */
  lemma CivilUndoesDayNumber(d: Date)
    requires IsDate(d)
    ensures CivilFromDays(DayNumber(d)) == d
  {
    var e := CivilFromDays(DayNumber(d));
    EveryDayHasADate(DayNumber(d));
    DayNumberUndoesCivil(DayNumber(d));
    hide CivilFromDays, DayNumber, IsDate;
    if Before(d, e) {
      DayNumberGrows(d, e);
    } else if Before(e, d) {
      DayNumberGrows(e, d);
    }
  }

  /** Counting forward: the date after a date has the next number. */
  lemma TomorrowIsNext(d: Date)
    requires IsDate(d)
    ensures IsDate(Tomorrow(d)) && DayNumber(Tomorrow(d)) == DayNumber(d) + 1
  {
    if d.day == DaysInMonth(d.year, d.month) {
      var mp := MarchMonth(d);
      if mp < 11 {
        MonthLength(mp);
      } else {
        NextYearBase(MarchYear(d));
      }
    }
    hide YearStart, IsLeap;
  }

  /** The day after has the date after. */
  lemma NextDayIsTomorrow(days: int)
    ensures CivilFromDays(days + 1) == Tomorrow(CivilFromDays(days))
  {
    hide CivilFromDays, DayNumber, IsDate, Tomorrow;
    var d := CivilFromDays(days);
    EveryDayHasADate(days);
    DayNumberUndoesCivil(days);
    TomorrowIsNext(d);
    CivilUndoesDayNumber(Tomorrow(d));
  }

  lemma TheEpoch()
    ensures CivilFromDays(0) == Date(1970, 1, 1)
  {}

  /** The order of days is the order of dates. */
  lemma DatesInOrder(a: int, b: int)
    ensures a < b <==> Before(CivilFromDays(a), CivilFromDays(b))
  {
    hide CivilFromDays, DayNumber, IsDate;
    var d, e := CivilFromDays(a), CivilFromDays(b);
    EveryDayHasADate(a);
    EveryDayHasADate(b);
    DayNumberUndoesCivil(a);
    DayNumberUndoesCivil(b);
    if Before(d, e) {
      DayNumberGrows(d, e);
    } else if Before(e, d) {
      DayNumberGrows(e, d);
    } else {
      assert d == e;
    }
  }
}
