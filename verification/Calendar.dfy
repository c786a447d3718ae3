/** The closed-form day-number-to-date conversion behind card timestamps, and
    the Gregorian calendar it has to agree with. */
module Calendar {

  datatype Date = Date(year: int, month: int, day: int)

  // ----- the calendar itself (RFC 3339, appendix C) -----

  predicate IsLeap(y: int) {
    y % 4 == 0 && (y % 100 != 0 || y % 400 == 0)
  }

  function DaysInYear(y: int): int {
    if IsLeap(y) then 366 else 365
  }

  function DaysInMonth(y: int, m: int): int {
    if m == 2 then (if IsLeap(y) then 29 else 28)
    else if m == 4 || m == 6 || m == 9 || m == 11 then 30
    else 31
  }

  predicate ValidDate(c: Date) {
    1 <= c.month <= 12 && 1 <= c.day <= DaysInMonth(c.year, c.month)
  }

  const EPOCH := Date(1970, 1, 1)

  function NextDay(c: Date): Date {
    if c.day < DaysInMonth(c.year, c.month) then Date(c.year, c.month, c.day + 1)
    else if c.month < 12 then Date(c.year, c.month + 1, 1)
    else Date(c.year + 1, 1, 1)
  }

  predicate Earlier(a: Date, b: Date) {
    a.year < b.year
    || (a.year == b.year
        && (a.month < b.month || (a.month == b.month && a.day < b.day)))
  }

  // ----- days from civil: lengths of years and months, added up -----

  /** Days from 1 January of year 1 to 1 January of year y. */
  function DaysBeforeYear(y: int): int {
    365 * (y - 1) + (y - 1) / 4 - (y - 1) / 100 + (y - 1) / 400
  }

  lemma DaysBeforeYearStep(y: int)
    ensures DaysBeforeYear(y + 1) == DaysBeforeYear(y) + DaysInYear(y)
  {
    LeapCount(y, 4);
    LeapCount(y, 100);
    LeapCount(y, 400);
    Divisors(y);
  }

  lemma LeapCount(y: int, n: int)
    requires n == 4 || n == 100 || n == 400
    ensures y / n == (y - 1) / n + if y % n == 0 then 1 else 0
  {
  }

  lemma Divisors(y: int)
    ensures y % 100 == 0 ==> y % 4 == 0
    ensures y % 400 == 0 ==> y % 100 == 0
  {
    if y % 100 == 0 {
      assert y == 4 * (25 * (y / 100));
    }
    if y % 400 == 0 {
      assert y == 100 * (4 * (y / 400));
    }
  }

  function DaysBeforeMonth(y: int, m: int): int
    requires m <= 12
    decreases m
  {
    if m <= 1 then 0 else DaysBeforeMonth(y, m - 1) + DaysInMonth(y, m - 1)
  }

  function DaysFromCivil(c: Date): int
    requires ValidDate(c)
  {
    DaysBeforeYear(c.year) - DaysBeforeYear(1970) + DaysBeforeMonth(c.year, c.month) + c.day - 1
  }

  predicate NamesDay(c: Date, days: int) {
    ValidDate(c) && DaysFromCivil(c) == days
  }

  lemma MonthTable(y: int)
    ensures var n := if IsLeap(y) then 1 else 0;
            && DaysBeforeMonth(y, 1) == 0 && DaysBeforeMonth(y, 2) == 31
            && DaysBeforeMonth(y, 3) == 59 + n && DaysBeforeMonth(y, 4) == 90 + n
            && DaysBeforeMonth(y, 5) == 120 + n && DaysBeforeMonth(y, 6) == 151 + n
            && DaysBeforeMonth(y, 7) == 181 + n && DaysBeforeMonth(y, 8) == 212 + n
            && DaysBeforeMonth(y, 9) == 243 + n && DaysBeforeMonth(y, 10) == 273 + n
            && DaysBeforeMonth(y, 11) == 304 + n && DaysBeforeMonth(y, 12) == 334 + n
  {
    assert DaysBeforeMonth(y, 4) == 90 + if IsLeap(y) then 1 else 0;
    assert DaysBeforeMonth(y, 7) == 181 + if IsLeap(y) then 1 else 0;
    assert DaysBeforeMonth(y, 10) == 273 + if IsLeap(y) then 1 else 0;
  }

  lemma {:induction false} YearsAddUp(y: int, y': int)
    requires y < y'
    ensures DaysBeforeYear(y) + DaysInYear(y) <= DaysBeforeYear(y')
    decreases y' - y
  {
    DaysBeforeYearStep(y);
    if y + 1 < y' {
      YearsAddUp(y + 1, y');
    }
  }

  /** Later dates have larger day numbers. */
  lemma DaysFromCivilMonotone(a: Date, b: Date)
    requires ValidDate(a) && ValidDate(b) && Earlier(a, b)
    ensures DaysFromCivil(a) < DaysFromCivil(b)
  {
    MonthTable(a.year);
    MonthTable(b.year);
    if a.year < b.year {
      YearsAddUp(a.year, b.year);
    }
  }

  lemma DaysFromCivilInjective(a: Date, b: Date)
    requires ValidDate(a) && ValidDate(b) && DaysFromCivil(a) == DaysFromCivil(b)
    ensures a == b
  {
    if Earlier(a, b) {
      DaysFromCivilMonotone(a, b);
    } else if Earlier(b, a) {
      DaysFromCivilMonotone(b, a);
    }
  }

  lemma NextDayIsValid(c: Date)
    requires ValidDate(c)
    ensures ValidDate(NextDay(c)) && DaysFromCivil(NextDay(c)) == DaysFromCivil(c) + 1
  {
    MonthTable(c.year);
    if c.month == 12 && c.day == 31 {
      DaysBeforeYearStep(c.year);
    }
  }

  // ----- machine integers -----

  const I64_MIN := -0x8000_0000_0000_0000
  const I64_MAX := 0x7fff_ffff_ffff_ffff

  /** `x as i32` on an i64. */
  function AsI32(x: int): int {
    (x + 0x8000_0000) % 0x1_0000_0000 - 0x8000_0000
  }

  /** The `/` of i64, which truncates towards zero. */
  function DivI64(a: int, b: int): int
    requires b > 0
  {
    if a >= 0 then a / b else -(-a / b)
  }

  /** Largest day number whose shift by 719468 stays within i64. */
  const MAX_DAYS := I64_MAX - 719468

  // ----- the conversion -----

  /** The year, month and day before the year is narrowed to i32. */
  function WideCivilFromDays(days: int): Date
    requires I64_MIN <= days <= MAX_DAYS
  {
    var z := days + 719468;
    CivilOfEra(EraOf(z), z - EraOf(z) * 146097)
  }

  /** The 400-year era of day z, counted from 1 March of year 0. */
  function EraOf(z: int): int {
    DivI64(if z >= 0 then z else z - 146096, 146097)
  }

  /** The date of day doe of the 400-year era number era. */
  function CivilOfEra(era: int, doe: int): Date {
    MarchDate(YearInEra(doe) + era * 400, DayInYear(doe))
  }

  function YearInEra(doe: int): int {
    (doe - doe / 1460 + doe / 36524 - doe / 146096) / 365
  }

  function DayInYear(doe: int): int {
    var yoe := YearInEra(doe);
    doe - (365 * yoe + yoe / 4 - yoe / 100)
  }

  /** Day doy of the year that begins on 1 March of year y. */
  function MarchDate(y: int, doy: int): Date {
    var mp := (5 * doy + 2) / 153;
    var d := doy - (153 * mp + 2) / 5 + 1;
    var m := if mp < 10 then mp + 3 else mp - 9;
    Date(y + if m <= 2 then 1 else 0, m, d)
  }

  function CivilFromDays(days: int): Date
    requires I64_MIN <= days <= MAX_DAYS
  {
    var c := WideCivilFromDays(days);
    Date(AsI32(c.year), c.month, c.day)
  }

  // ----- correctness of the year-of-era formula -----

  lemma Quotient(a: int, b: int, q: int)
    requires b > 0 && q * b <= a < q * b + b
    ensures a / b == q
  {
    var d := a / b - q;
    assert d * b == a - a % b - q * b;
    if d >= 1 {
      AtLeast(d, b);
    } else if d <= -1 {
      AtLeast(-d, b);
    }
  }

  lemma AtLeast(d: int, b: int)
    requires d >= 1 && b > 0
    ensures d * b >= b
  {
  }

  /** A day of a 400-year era, split into centuries, four-year cycles, years
      and days; years start in March, so the leap day comes last. */
  datatype EraDay = EraDay(century: int, cycle: int, year: int, day: int)

  predicate IsEraDay(e: EraDay) {
    && 0 <= e.century <= 3 && 0 <= e.cycle <= 24 && 0 <= e.year <= 3
    && 0 <= e.day <= 365
    && (e.day == 365 ==> e.year == 3 && (e.cycle < 24 || e.century == 3))
  }

  function DayOfEra(e: EraDay): int {
    36524 * e.century + 1461 * e.cycle + 365 * e.year + e.day
  }

  function YearOfEra(e: EraDay): int {
    100 * e.century + 4 * e.cycle + e.year
  }

  lemma SplitEra(doe: int) returns (e: EraDay)
    requires 0 <= doe <= 146096
    ensures IsEraDay(e) && DayOfEra(e) == doe
  {
    var c := if doe / 36524 < 3 then doe / 36524 else 3;
    var r1 := doe - 36524 * c;
    var q := if r1 / 1461 < 24 then r1 / 1461 else 24;
    var r2 := r1 - 1461 * q;
    var k := if r2 / 365 < 3 then r2 / 365 else 3;
    e := EraDay(c, q, k, r2 - 365 * k);
  }

  lemma YearOfEraFormula(e: EraDay)
    requires IsEraDay(e)
    ensures YearInEra(DayOfEra(e)) == YearOfEra(e)
  {
    var doe, c := DayOfEra(e), e.century;
    var last := if doe == 146096 then 1 else 0;
    Quotient(doe, 146096, last);
    Quotient(doe, 36524, c + last);
    // 36524 == 25 * 1460 + 24 and 1461 == 1460 + 1
    var carry := if 24 * c + e.cycle + 365 * e.year + e.day >= 1460 then 1 else 0;
    Quotient(doe, 1460, 25 * c + e.cycle + carry);
    Quotient(doe - doe / 1460 + doe / 36524 - doe / 146096, 365, YearOfEra(e));
  }

  lemma YearStart(e: EraDay)
    requires IsEraDay(e)
    ensures DayInYear(DayOfEra(e)) == e.day
  {
    YearOfEraFormula(e);
    Quotient(YearOfEra(e), 4, 25 * e.century + e.cycle);
    Quotient(YearOfEra(e), 100, e.century);
  }

  /** Days from 1 March to day doy of a March-based year, as month and day. */
  lemma MonthOfDay(doy: int)
    requires 0 <= doy <= 365
    ensures var mp := (5 * doy + 2) / 153; var d := doy - (153 * mp + 2) / 5 + 1;
            var m := if mp < 10 then mp + 3 else mp - 9;
            && 0 <= mp <= 11 && 1 <= d
            && (m == 2 ==> d <= 28 || (d == 29 && doy == 365))
            && (m != 2 ==> d <= DaysInMonth(1, m))
            && (m > 2 ==> DaysBeforeMonth(1, m) + d - 1 == doy + 59)
            && (m <= 2 ==> DaysBeforeMonth(1, m) + d - 1 == doy - 306)
  {
    MonthTable(1);
    var mp := (5 * doy + 2) / 153;
    assert mp == 0 || mp == 1 || mp == 2 || mp == 3 || mp == 4 || mp == 5
        || mp == 6 || mp == 7 || mp == 8 || mp == 9 || mp == 10 || mp == 11;
  }

  lemma LeapInEra(e: EraDay, era: int)
    requires IsEraDay(e) && e.day == 365
    ensures IsLeap(YearOfEra(e) + era * 400 + 1)
  {
    var y := YearOfEra(e) + 1 + era * 400;
    assert y == 4 * (25 * e.century + e.cycle + 1 + 100 * era);
    if e.cycle < 24 {
      assert y == 100 * (e.century + 4 * era) + 4 * (e.cycle + 1);
    } else {
      assert y == 400 * (era + 1);
    }
  }

  /** The March-based start of a year against the January-based count. */
  lemma EraStart(e: EraDay, era: int, days: int)
    requires IsEraDay(e) && days == era * 146097 + DayOfEra(e) - 719468
    ensures days == MarchStart(YearOfEra(e) + era * 400) + e.day
  {
    var y := YearOfEra(e) + era * 400;
    Quotient(y, 4, 25 * e.century + e.cycle + 100 * era);
    Quotient(y, 100, e.century + 4 * era);
    Quotient(y, 400, era);
    assert DaysBeforeYear(y + 1) == 365 * y + y / 4 - y / 100 + y / 400;
  }

  lemma EraFloor(z: int)
    ensures 0 <= z - EraOf(z) * 146097 <= 146096
  {
    if z < 0 {
      var n := 146096 - z;
      assert n / 146097 * 146097 <= n < n / 146097 * 146097 + 146097;
    }
  }

  /** Day number of 1 March of year y. */
  function MarchStart(y: int): int {
    DaysBeforeYear(y + 1) - 306 - DaysBeforeYear(1970)
  }

  lemma MarchDateIsExact(y: int, doy: int, days: int)
    requires 0 <= doy <= 365 && (doy == 365 ==> IsLeap(y + 1))
    requires days == MarchStart(y) + doy
    ensures NamesDay(MarchDate(y, doy), days)
  {
    MonthOfDay(doy);
    DaysBeforeYearStep(y);
    MonthTable(1);
    MonthTable(y);
    MonthTable(y + 1);
  }

  lemma MarchDateOfEra(era: int, doe: int, days: int) returns (y: int, doy: int)
    requires 0 <= doe <= 146096 && days == era * 146097 + doe - 719468
    ensures y == YearInEra(doe) + era * 400 && doy == DayInYear(doe)
    ensures 0 <= doy <= 365 && (doy == 365 ==> IsLeap(y + 1))
    ensures days == MarchStart(y) + doy
  {
    hide YearInEra, DayInYear, MarchStart, IsLeap, YearOfEra, DayOfEra;
    var e := SplitEra(doe);
    YearOfEraFormula(e);
    YearStart(e);
    EraStart(e, era, days);
    if e.day == 365 {
      LeapInEra(e, era);
    }
    y, doy := YearOfEra(e) + era * 400, e.day;
  }

  lemma CivilOfEraNamesDay(era: int, doe: int, days: int)
    requires 0 <= doe <= 146096 && days == era * 146097 + doe - 719468
    ensures NamesDay(CivilOfEra(era, doe), days)
  {
    var y, doy := MarchDateOfEra(era, doe, days);
    MarchDateIsExact(y, doy, days);
  }

  /** The closed form gives a valid date, and that date's day number is the input. */
  lemma WideCivilIsExact(days: int)
    requires I64_MIN <= days <= MAX_DAYS
    ensures NamesDay(WideCivilFromDays(days), days)
  {
    var z := days + 719468;
    EraFloor(z);
    CivilOfEraNamesDay(EraOf(z), z - EraOf(z) * 146097, days);
  }

  // ----- main results -----

  /** First and last day number whose year fits in an i32. */
  const FIRST_I32_DAY := -784353015833
  const LAST_I32_DAY := 784351576776

  lemma I32YearBounds(c: Date)
    requires ValidDate(c)
    ensures FIRST_I32_DAY <= DaysFromCivil(c) <= LAST_I32_DAY
       <==> -0x8000_0000 <= c.year <= 0x7fff_ffff
  {
    var first, last := Date(-0x8000_0000, 1, 1), Date(0x7fff_ffff, 12, 31);
    assert DaysFromCivil(first) == FIRST_I32_DAY;
    MonthTable(last.year);
    assert DaysFromCivil(last) == LAST_I32_DAY;
    if c.year < first.year {
      DaysFromCivilMonotone(c, first);
    } else if c.year > last.year {
      DaysFromCivilMonotone(last, c);
    } else {
      if c != first && Earlier(first, c) {
        DaysFromCivilMonotone(first, c);
      }
      if c != last && Earlier(c, last) {
        DaysFromCivilMonotone(c, last);
      }
    }
  }

  lemma NarrowedYear(wide: Date, c: Date, days: int)
    requires NamesDay(wide, days) && c == Date(AsI32(wide.year), wide.month, wide.day)
    ensures NamesDay(c, days) <==> FIRST_I32_DAY <= days <= LAST_I32_DAY
  {
    I32YearBounds(wide);
    YearSurvives(wide.year);
    if NamesDay(c, days) {
      DaysFromCivilInjective(c, wide);
    }
  }

  lemma YearSurvives(y: int)
    ensures AsI32(y) == y <==> -0x8000_0000 <= y <= 0x7fff_ffff
  {
  }

  /** The conversion names the right calendar day exactly while the year fits
      in an i32; outside that range the narrowed year is another year. */
  lemma CivilFromDaysExact(days: int)
    requires I64_MIN <= days <= MAX_DAYS
    ensures NamesDay(CivilFromDays(days), days) <==> FIRST_I32_DAY <= days <= LAST_I32_DAY
  {
    WideCivilIsExact(days);
    NarrowedYear(WideCivilFromDays(days), CivilFromDays(days), days);
  }

  /** Conversely, every valid date in range is the image of its own day number. */
  lemma CivilRoundTrip(c: Date)
    requires ValidDate(c) && -0x8000_0000 <= c.year <= 0x7fff_ffff
    ensures FIRST_I32_DAY <= DaysFromCivil(c) <= LAST_I32_DAY
    ensures CivilFromDays(DaysFromCivil(c)) == c
  {
    I32YearBounds(c);
    CivilFromDaysExact(DaysFromCivil(c));
    DaysFromCivilInjective(CivilFromDays(DaysFromCivil(c)), c);
  }

  lemma SameDay(a: Date, b: Date, days: int)
    requires NamesDay(a, days) && NamesDay(b, days)
    ensures a == b
  {
    DaysFromCivilInjective(a, b);
  }

  lemma Successor(c: Date, next: Date, days: int)
    requires NamesDay(c, days) && NamesDay(next, days + 1)
    ensures next == NextDay(c)
  {
    NextDayIsValid(c);
    SameDay(next, NextDay(c), days + 1);
  }

  lemma EpochNamesDayZero()
    ensures NamesDay(EPOCH, 0)
  {
  }

  lemma CivilStartsAtEpoch()
    ensures CivilFromDays(0) == EPOCH
  {
    var days := 0;
    EpochNamesDayZero();
    CivilFromDaysExact(days);
    SameDay(CivilFromDays(days), EPOCH, days);
  }

  /** Each following day number is the next calendar day, so that with
      CivilStartsAtEpoch the conversion is the calendar, counted off day by day. */
  lemma CivilStepsThroughCalendar(days: int)
    requires FIRST_I32_DAY <= days < LAST_I32_DAY
    ensures CivilFromDays(days + 1) == NextDay(CivilFromDays(days))
  {
    hide CivilFromDays, NamesDay, NextDay;
    CivilFromDaysExact(days);
    CivilFromDaysExact(days + 1);
    Successor(CivilFromDays(days), CivilFromDays(days + 1), days);
  }

  lemma CivilOrder(a: int, b: int)
    requires FIRST_I32_DAY <= a < b <= LAST_I32_DAY
    ensures Earlier(CivilFromDays(a), CivilFromDays(b))
  {
    CivilFromDaysExact(a);
    CivilFromDaysExact(b);
    if Earlier(CivilFromDays(b), CivilFromDays(a)) {
      DaysFromCivilMonotone(CivilFromDays(b), CivilFromDays(a));
    }
  }
}
