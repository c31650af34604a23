/** Unix days as Gregorian dates, and Unix milliseconds as UTC date and time. The
    arithmetic works in eras of 400 years that begin on the first of March, so that
    a leap day ends its year. */
module CivilDate {
  import opened Arithmetic

  datatype Date = Date(year: int, month: int, day: int)

  function YearOfEra(dayOfEra: int): int {
    (dayOfEra - dayOfEra / 1460 + dayOfEra / 36_524 - dayOfEra / 146_096) / 365
  }

  function DayOfYear(dayOfEra: int): int {
    var year := YearOfEra(dayOfEra);
    dayOfEra - (365 * year + year / 4 - year / 100)
  }

  function MonthIndex(dayOfYear: int): int { (5 * dayOfYear + 2) / 153 }

  /** The date of day `dayOfYear` of a year that began on the first of March. */
  function DateInYear(marchYear: int, dayOfYear: int): Date {
    var index := MonthIndex(dayOfYear);
    var day := dayOfYear - (153 * index + 2) / 5 + 1;
    var month := if index < 10 then index + 3 else index - 9;
    Date(marchYear + if month <= 2 then 1 else 0, month, day)
  }

  function CivilInEra(era: int, dayOfEra: int): Date {
    DateInYear(YearOfEra(dayOfEra) + era * 400, DayOfYear(dayOfEra))
  }

  /** `f` of a day's era and its place in it. */
  function InEra<T>(f: (int, int) -> T, days: int): T {
    var shifted := days + 719_468;
    f(shifted / 146_097, shifted % 146_097)
  }

  function Civil(days: int): Date { InEra(CivilInEra, days) }

  // ----- the Gregorian calendar itself -----

  predicate IsLeap(year: int) { year % 4 == 0 && (year % 100 != 0 || year % 400 == 0) }

  function DaysInMonth(year: int, month: int): int {
    if month == 2 then (if IsLeap(year) then 29 else 28)
    else if month == 4 || month == 6 || month == 9 || month == 11 then 30
    else 31
  }

  predicate IsDate(d: Date) { 1 <= d.month <= 12 && 1 <= d.day <= DaysInMonth(d.year, d.month) }

  function Successor(d: Date): Date {
    if d.day < DaysInMonth(d.year, d.month) then d.(day := d.day + 1)
    else if d.month < 12 then Date(d.year, d.month + 1, 1)
    else Date(d.year + 1, 1, 1)
  }

  function DateAfter(n: nat): Date { if n == 0 then Date(1970, 1, 1) else Successor(DateAfter(n - 1)) }

  // ----- cycles of 100, 4 and 1 years -----

  /** The March year `100 c + 4 f + g` of an era ends with a leap day. */
  predicate EndsInLeapDay(c: int, f: int, g: int) { g == 3 && (f != 24 || c == 3) }

  /** The days of a March year of an era. */
  function YearLength(c: int, f: int, g: int): int { if EndsInLeapDay(c, f, g) then 366 else 365 }

  predicate InCycles(c: int, f: int, g: int, h: int) {
    && 0 <= c < 4 && 0 <= f < 25 && 0 <= g < 4
    && 0 <= h < YearLength(c, f, g)
  }

  function FromCycles(c: int, f: int, g: int, h: int): int { 36_524 * c + 1461 * f + 365 * g + h }

  lemma IntoCycles(dayOfEra: int) returns (c: int, f: int, g: int, h: int)
    requires 0 <= dayOfEra < 146_097
    ensures InCycles(c, f, g, h) && dayOfEra == FromCycles(c, f, g, h)
  {
    c := if dayOfEra / 36_524 < 4 then dayOfEra / 36_524 else 3;
    var inCentury := dayOfEra - 36_524 * c;
    f := inCentury / 1461;
    var inFour := inCentury - 1461 * f;
    g := if inFour / 365 < 4 then inFour / 365 else 3;
    h := inFour - 365 * g;
  }

  lemma FourYearQuotient(c: int, f: int, g: int, h: int)
    requires InCycles(c, f, g, h)
    ensures FromCycles(c, f, g, h) / 1460 == 25 * c + f + if 24 * c + f + 365 * g + h < 1460 then 0 else 1
  {
  }

  lemma CenturyQuotients(c: int, f: int, g: int, h: int)
    requires InCycles(c, f, g, h)
    ensures
      var d := FromCycles(c, f, g, h);
      var last := if d == 146_096 then 1 else 0;
      0 <= d < 146_097 && d / 36_524 == c + last && d / 146_096 == last
  {
  }

  lemma YearQuotient(year: int, h: int, e: int)
    requires 0 <= h - e < 365
    ensures (365 * year + h - e) / 365 == year
  {
  }

  /** The closed formula finds the year and the day that the cycles count. */
  lemma FormulaCountsCycles(c: int, f: int, g: int, h: int)
    requires InCycles(c, f, g, h)
    ensures 0 <= FromCycles(c, f, g, h) < 146_097
    ensures YearOfEra(FromCycles(c, f, g, h)) == 100 * c + 4 * f + g
    ensures DayOfYear(FromCycles(c, f, g, h)) == h
  {
    FourYearQuotient(c, f, g, h);
    CenturyQuotients(c, f, g, h);
    YearQuotient(100 * c + 4 * f + g, h, if 24 * c + f + 365 * g + h < 1460 then 0 else 1);
  }

  /** The day with these cycles of era `era`. */
  function DayOf(era: int, c: int, f: int, g: int, h: int): int { 146_097 * era + FromCycles(c, f, g, h) - 719_468 }

  lemma CivilOfEra(days: int, era: int, dayOfEra: int, year: int, h: int)
    requires 0 <= dayOfEra < 146_097 && YearOfEra(dayOfEra) == year && DayOfYear(dayOfEra) == h
    requires days == 146_097 * era + dayOfEra - 719_468
    ensures Civil(days) == DateInYear(400 * era + year, h)
  {
    EraOf(CivilInEra, days, era, dayOfEra);
  }

  lemma EraOf<T>(f: (int, int) -> T, days: int, era: int, dayOfEra: int)
    requires 0 <= dayOfEra < 146_097 && days == 146_097 * era + dayOfEra - 719_468
    ensures InEra(f, days) == f(era, dayOfEra)
  {
    var shifted := days + 719_468;
    assert shifted / 146_097 == era && shifted % 146_097 == dayOfEra;
  }

  /** `dates` gives each day the date its cycles count. */
  ghost predicate CountsAt(dates: int -> Date, era: int, c: int, f: int, g: int, h: int) {
    InCycles(c, f, g, h) ==> dates(DayOf(era, c, f, g, h)) == DateInYear(400 * era + 100 * c + 4 * f + g, h)
  }

  ghost predicate Counts(dates: int -> Date) {
    forall era, c, f, g, h :: CountsAt(dates, era, c, f, g, h)
  }

  lemma CivilCounts()
    ensures Counts(Civil)
  {
    forall era, c, f, g, h
      ensures CountsAt(Civil, era, c, f, g, h)
    {
      if InCycles(c, f, g, h) {
        FormulaCountsCycles(c, f, g, h);
        CivilOfEra(DayOf(era, c, f, g, h), era, FromCycles(c, f, g, h), 100 * c + 4 * f + g, h);
      }
    }
  }

  // ----- months -----

  lemma LeapOfCycles(era: int, c: int, f: int, g: int)
    requires 0 <= c < 4 && 0 <= f < 25 && 0 <= g < 4
    ensures IsLeap(400 * era + 100 * c + 4 * f + g + 1) <==> EndsInLeapDay(c, f, g)
  {
    var year := 400 * era + 100 * c + 4 * f + g + 1;
    Remainder(100 * era + 25 * c + f, g + 1, 4);
    if g == 3 {
      var carry := if f == 24 then 1 else 0;
      Remainder(4 * era + c + carry, 4 * f + 4 - 100 * carry, 100);
      var wrap := if c == 3 then carry else 0;
      Remainder(era + wrap, 100 * c + 4 * f + 4 - 400 * wrap, 400);
    }
  }

  lemma Remainder(q: int, r: int, n: int)
    requires 0 < n && 0 <= r <= n
    ensures (n * q + r) % n == if r == n then 0 else r
  {
    if r == n {
      assert n * q + r == (q + 1) * n;
      ProductIsMultiple(q + 1, n);
    } else {
      MultipleMinusRemainder(n * q + r, n);
      ProductIsMultiple(q, n);
      assert n * q == q * n;
      if (n * q + r) / n < q {
        ProductGrows((n * q + r) / n + 1, q, n);
      } else if q < (n * q + r) / n {
        ProductGrows(q + 1, (n * q + r) / n, n);
      }
    }
  }

  /** Within a March year the days run through the months in order. */
  lemma DaysRunThroughMonths(marchYear: int, h: int)
    requires 0 <= h < (if IsLeap(marchYear + 1) then 366 else 365)
    ensures IsDate(DateInYear(marchYear, h))
    ensures h + 1 < (if IsLeap(marchYear + 1) then 366 else 365) ==>
              DateInYear(marchYear, h + 1) == Successor(DateInYear(marchYear, h))
    ensures h + 1 == (if IsLeap(marchYear + 1) then 366 else 365) ==>
              DateInYear(marchYear + 1, 0) == Successor(DateInYear(marchYear, h))
  {
    var index := MonthIndex(h);
    assert 0 <= index < 12;
  }

  /** The four-year cycle after `f` of century `c`, perhaps of the next era. */
  lemma NextFour(c: int, f: int) returns (carry: int, c': int, f': int)
    requires 0 <= c < 4 && 0 <= f < 25
    ensures 0 <= c' < 4 && 0 <= f' < 25 && 400 * carry + 100 * c' + 4 * f' == 100 * c + 4 * f + 4
    ensures 146_097 * carry + FromCycles(c', f', 0, 0) == FromCycles(c, f, 3, 0) + YearLength(c, f, 3)
  {
    if f < 24 {
      carry, c', f' := 0, c, f + 1;
    } else if c < 3 {
      carry, c', f' := 0, c + 1, 0;
      assert f == 24;
    } else {
      carry, c', f' := 1, 0, 0;
      assert f == 24 && c == 3;
    }
  }

  lemma NextYear(c: int, f: int, g: int) returns (carry: int, c': int, f': int, g': int)
    requires 0 <= c < 4 && 0 <= f < 25 && 0 <= g < 4
    ensures InCycles(c', f', g', 0) && 400 * carry + 100 * c' + 4 * f' + g' == 100 * c + 4 * f + g + 1
    ensures 146_097 * carry + FromCycles(c', f', g', 0) == FromCycles(c, f, g, 0) + YearLength(c, f, g)
  {
    if g < 3 {
      return 0, c, f, g + 1;
    } else {
      carry, c', f' := NextFour(c, f);
      g' := 0;
    }
  }

  /** The cycles of the next day: the next day of the year, or the first of the
      next year, perhaps of the next era. */
  lemma NextInCycles(c: int, f: int, g: int, h: int) returns (carry: int, c': int, f': int, g': int, h': int)
    requires InCycles(c, f, g, h)
    ensures InCycles(c', f', g', h')
    ensures 146_097 * carry + FromCycles(c', f', g', h') == FromCycles(c, f, g, h) + 1
    ensures
      if h + 1 < YearLength(c, f, g) then carry == 0 && c' == c && f' == f && g' == g && h' == h + 1
      else 400 * carry + 100 * c' + 4 * f' + g' == 100 * c + 4 * f + g + 1 && h' == 0
  {
    if h + 1 < YearLength(c, f, g) {
      return 0, c, f, g, h + 1;
    } else {
      carry, c', f', g' := NextYear(c, f, g);
      h' := 0;
    }
  }

  lemma Distribute(n: int, x: int, y: int)
    ensures n * (x + y) == n * x + n * y
  {
  }

  /** Whatever counts the cycles gives each day's successor to the next day. */
  lemma CountingSucceeds(dates: int -> Date, days: int)
    requires Counts(dates)
    ensures StepsAt(dates, days)
  {
    var era := (days + 719_468) / 146_097;
    var c, f, g, h := IntoCycles((days + 719_468) % 146_097);
    CyclesSucceed(dates, days, era, c, f, g, h);
  }

  lemma CyclesSucceed(dates: int -> Date, days: int, era: int, c: int, f: int, g: int, h: int)
    requires Counts(dates) && InCycles(c, f, g, h) && days == DayOf(era, c, f, g, h)
    ensures StepsAt(dates, days)
  {
    var carry, c', f', g', h' := NextInCycles(c, f, g, h);
    Distribute(146_097, era, carry);
    Distribute(400, era, carry);
    assert CountsAt(dates, era, c, f, g, h) && CountsAt(dates, era + carry, c', f', g', h');
    LeapOfCycles(era, c, f, g);
    var year := 400 * era + 100 * c + 4 * f + g;
    DaysRunThroughMonths(year, h);
    StepsOn(dates, days, year, h, 400 * (era + carry) + 100 * c' + 4 * f' + g', h');
  }

  lemma StepsOn(dates: int -> Date, days: int, year: int, h: int, year': int, h': int)
    requires dates(days) == DateInYear(year, h) && dates(days + 1) == DateInYear(year', h')
    requires IsDate(DateInYear(year, h)) && DateInYear(year', h') == Successor(DateInYear(year, h))
    ensures StepsAt(dates, days)
  {
  }

  /** Every day's date is followed by its Gregorian successor. */
  lemma NextDayIsSuccessor(days: int)
    ensures Civil(days + 1) == Successor(Civil(days)) && IsDate(Civil(days))
  {
    CivilCounts();
    CountingSucceeds(Civil, days);
    assert StepsAt(Civil, days);
  }

  lemma EpochIsDayZero()
    ensures Civil(0) == Date(1970, 1, 1)
  {
    FormulaCountsCycles(3, 17, 1, 306);
    CivilOfEra(0, 4, 135_080, 369, 306);
  }

  /** ... so it is the right date for every day: the epoch, advanced day by day. */
  lemma CivilCountsDays(n: nat)
    ensures Civil(n) == DateAfter(n)
  {
    CivilSucceeds();
    EpochIsDayZero();
    SuccessorsCount(Civil, n);
  }

  /** Dates that follow one another, day by day. */
  ghost predicate Succeed(dates: int -> Date) {
    forall days: int :: StepsAt(dates, days)
  }

  ghost predicate StepsAt(dates: int -> Date, days: int) {
    dates(days + 1) == Successor(dates(days)) && IsDate(dates(days))
  }

  lemma CivilSucceeds()
    ensures Succeed(Civil)
  {
    CivilCounts();
    forall days: int
      ensures StepsAt(Civil, days)
    {
      CountingSucceeds(Civil, days);
    }
  }

  lemma {:induction false} SuccessorsCount(dates: int -> Date, n: nat)
    requires Succeed(dates) && dates(0) == Date(1970, 1, 1)
    ensures dates(n) == DateAfter(n)
  {
    if n > 0 {
      SuccessorsCount(dates, n - 1);
      assert StepsAt(dates, n - 1);
    }
  }

  predicate Before(a: Date, b: Date) {
    a.year < b.year || (a.year == b.year && (a.month < b.month || (a.month == b.month && a.day < b.day)))
  }

  lemma {:induction false} SuccessorsIncrease(dates: int -> Date, a: int, b: int)
    requires Succeed(dates) && a < b
    ensures Before(dates(a), dates(b))
    decreases b - a
  {
    assert StepsAt(dates, b - 1);
    if a < b - 1 {
      SuccessorsIncrease(dates, a, b - 1);
    }
  }

  /** Later days have later dates; in particular no two days share one. */
  lemma DatesIncrease(a: int, b: int)
    requires a < b
    ensures Before(Civil(a), Civil(b))
  {
    CivilSucceeds();
    SuccessorsIncrease(Civil, a, b);
  }

  // ----- date and time -----

  datatype Utc = Utc(date: Date, hour: int, minute: int, second: int, millis: int)

  function UtcParts(unixMillis: U64): Utc { DateAndTime(Civil, unixMillis) }

  function DateAndTime(dates: int -> Date, unixMillis: U64): Utc {
    var seconds := unixMillis / 1000;
    var time := seconds % 86_400;
    Utc(dates(seconds / 86_400), time / 3600, time % 3600 / 60, time % 60, unixMillis % 1000)
  }

  function MillisOfDay(u: Utc): int { ((u.hour * 60 + u.minute) * 60 + u.second) * 1000 + u.millis }

  predicate UtcBefore(a: Utc, b: Utc) {
    Before(a.date, b.date) || (a.date == b.date && MillisOfDay(a) < MillisOfDay(b))
  }

  lemma TimeIsExact(dates: int -> Date, a: U64)
    ensures
      var u := DateAndTime(dates, a);
      && 0 <= u.hour < 24 && 0 <= u.minute < 60 && 0 <= u.second < 60 && 0 <= u.millis < 1000
      && u.date == dates(a / 86_400_000) && MillisOfDay(u) == a % 86_400_000
  {
    assert a / 1000 / 86_400 == a / 86_400_000;
  }

  lemma InstantsAreOrdered(dates: int -> Date, a: U64, b: U64)
    requires Succeed(dates) && a < b
    ensures UtcBefore(DateAndTime(dates, a), DateAndTime(dates, b))
  {
    TimeIsExact(dates, a);
    TimeIsExact(dates, b);
    if a / 86_400_000 < b / 86_400_000 {
      SuccessorsIncrease(dates, a / 86_400_000, b / 86_400_000);
    }
  }

  /** Each instant has fields in range, and they say which instant of which day it is. */
  lemma UtcIsExact(a: U64)
    ensures
      var u := UtcParts(a);
      && IsDate(u.date) && 0 <= u.hour < 24 && 0 <= u.minute < 60 && 0 <= u.second < 60 && 0 <= u.millis < 1000
      && u.date == Civil(a / 86_400_000) && MillisOfDay(u) == a % 86_400_000
  {
    CivilSucceeds();
    TimeIsExact(Civil, a);
    assert StepsAt(Civil, a / 86_400_000);
  }

  /** Later instants compare later, field by field. */
  lemma UtcIsOrdered(a: U64, b: U64)
    requires a < b
    ensures UtcBefore(UtcParts(a), UtcParts(b))
  {
    CivilSucceeds();
    InstantsAreOrdered(Civil, a, b);
  }
}
