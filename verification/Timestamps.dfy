/** The two clock renderings: the compact form inside generated card ids and the
    date-time form of section 5.6 of RFC 3339. */
module Timestamps {
  import opened Calendar
  import opened Text

  const DAY := 86400

  /** First second of 10000-01-01. */
  const YEAR_10000 := 253402300800

  /** The six numbers of one clock reading. */
  datatype Stamp = Stamp(year: int, month: int, day: int, hour: nat, minute: nat, second: nat)

  function StampOf(c: Date, tod: nat): Stamp {
    Stamp(c.year, c.month, c.day, tod / 3600, tod % 3600 / 60, tod % 60)
  }

  function StampAt(secs: nat): Stamp
    requires secs <= I64_MAX
  {
    StampOf(CivilFromDays(secs / DAY), secs % DAY)
  }

  /** The fields in order, padded to four and two digits, with `dash` inside the
      date, "T" before the time, `colon` inside the time and `end` at the end. */
  function Render(t: Stamp, dash: string, colon: string, end: string): string {
    PadInt(t.year, 4) + (dash + (PadInt(t.month, 2) + (dash + (PadInt(t.day, 2) + ("T"
    + (Pad(t.hour, 2) + (colon + (Pad(t.minute, 2) + (colon + (Pad(t.second, 2) + end))))))))))
  }

  /** `{y:04}{mo:02}{d:02}T{hh:02}{mm:02}{ss:02}` of the clock reading secs. */
  function NowCompact(secs: nat): string
    requires secs <= I64_MAX
  {
    Render(StampAt(secs), "", "", "")
  }

  /** `{y:04}-{mo:02}-{d:02}T{hh:02}:{mm:02}:{ss:02}Z` of the clock reading secs. */
  function NowRfc3339(secs: nat): string
    requires secs <= I64_MAX
  {
    Render(StampAt(secs), "-", ":", "Z")
  }

  // ----- six fixed-width fields -----

  predicate FourDigitYear(t: Stamp) {
    && 0 <= t.year < 10000 && 0 <= t.month < 100 && 0 <= t.day < 100
    && t.hour < 100 && t.minute < 100 && t.second < 100
  }

  predicate Before(a: Stamp, b: Stamp) {
    a.year < b.year || (a.year == b.year
    && (a.month < b.month || (a.month == b.month
    && (a.day < b.day || (a.day == b.day
    && (a.hour < b.hour || (a.hour == b.hour
    && (a.minute < b.minute || (a.minute == b.minute
    && a.second < b.second)))))))))
  }

  /** As PadOrder, with a fixed separator after the field. */
  lemma FieldOrder(a: nat, b: nat, w: nat, sep: string, u: string, v: string)
    requires w > 0 && a < Pow10(w) && b < Pow10(w)
    requires a < b || (a == b && LexLess(u, v))
    ensures LexLess(Pad(a, w) + (sep + u), Pad(b, w) + (sep + v))
  {
    LexCommonPrefix(sep, u, v);
    PadOrder(a, b, w, sep + u, sep + v);
  }

  lemma Widths()
    ensures Pow10(2) == 100 && Pow10(4) == 10000
  {
    assert Pow10(1) == 10 && Pow10(3) == 1000;
  }

  lemma RenderOrder(a: Stamp, b: Stamp, dash: string, colon: string, end: string)
    requires FourDigitYear(a) && FourDigitYear(b) && Before(a, b)
    ensures LexLess(Render(a, dash, colon, end), Render(b, dash, colon, end))
  {
    Widths();
    var a5, b5 := Pad(a.second, 2) + end, Pad(b.second, 2) + end;
    var a4, b4 := Pad(a.minute, 2) + (colon + a5), Pad(b.minute, 2) + (colon + b5);
    var a3, b3 := Pad(a.hour, 2) + (colon + a4), Pad(b.hour, 2) + (colon + b4);
    var a2, b2 := Pad(a.day, 2) + ("T" + a3), Pad(b.day, 2) + ("T" + b3);
    var a1, b1 := Pad(a.month, 2) + (dash + a2), Pad(b.month, 2) + (dash + b2);
    if a.second < b.second { PadOrder(a.second, b.second, 2, end, end); }
    if a.minute < b.minute || (a.minute == b.minute && LexLess(a5, b5)) {
      FieldOrder(a.minute, b.minute, 2, colon, a5, b5);
    }
    if a.hour < b.hour || (a.hour == b.hour && LexLess(a4, b4)) { FieldOrder(a.hour, b.hour, 2, colon, a4, b4); }
    if a.day < b.day || (a.day == b.day && LexLess(a3, b3)) { FieldOrder(a.day, b.day, 2, "T", a3, b3); }
    if a.month < b.month || (a.month == b.month && LexLess(a2, b2)) { FieldOrder(a.month, b.month, 2, dash, a2, b2); }
    FieldOrder(a.year, b.year, 4, dash, a1, b1);
  }

  lemma RenderLength(t: Stamp, dash: string, colon: string, end: string)
    requires FourDigitYear(t)
    ensures |Render(t, dash, colon, end)| == 15 + 2 * |dash| + 2 * |colon| + |end|
  {
    Widths();
    PadFits(t.year, 4);
    PadFits(t.month, 2);
    PadFits(t.day, 2);
    PadFits(t.hour, 2);
    PadFits(t.minute, 2);
    PadFits(t.second, 2);
  }

  // ----- from seconds to stamps -----

  lemma FourDigitDate(days: nat)
    requires days < YEAR_10000 / DAY
    ensures var c := CivilFromDays(days);
            1970 <= c.year < 10000 && 0 <= c.month < 100 && 0 <= c.day < 100
  {
    var c := CivilFromDays(days);
    CivilFromDaysExact(days);
    WithinYears(c);
  }

  lemma WithinYears(c: Date)
    requires ValidDate(c) && 0 <= DaysFromCivil(c) < YEAR_10000 / DAY
    ensures 1970 <= c.year < 10000
  {
    var end := Date(10000, 1, 1);
    assert DaysFromCivil(EPOCH) == 0 && DaysFromCivil(end) == YEAR_10000 / DAY;
    if c.year < 1970 {
      DaysFromCivilMonotone(c, EPOCH);
    } else if c.year >= 10000 && c != end {
      DaysFromCivilMonotone(end, c);
    }
  }

  /** Days compare first, then the time of day. */
  lemma StampOrder(c: Date, c': Date, tod: nat, tod': nat)
    requires Earlier(c, c') || (c == c' && tod < tod')
    ensures Before(StampOf(c, tod), StampOf(c', tod'))
  {
    if c == c' {
      Clock(tod);
      Clock(tod');
    }
  }

  lemma Clock(tod: nat)
    ensures tod == 3600 * (tod / 3600) + 60 * (tod % 3600 / 60) + tod % 60
    ensures 0 <= tod % 3600 / 60 < 60
  {
    var h, r := tod / 3600, tod % 3600;
    assert tod == 60 * (60 * h + r / 60) + r % 60;
  }

  lemma DayAndTime(s: nat, t: nat)
    requires s < t
    ensures s / DAY < t / DAY || (s / DAY == t / DAY && s % DAY < t % DAY)
  {
  }

  lemma TimeFits(c: Date, tod: nat)
    requires 0 <= c.year < 10000 && 0 <= c.month < 100 && 0 <= c.day < 100 && tod < DAY
    ensures FourDigitYear(StampOf(c, tod))
  {
  }

  // ----- main results -----

  lemma StampsInOrder(s: nat, t: nat)
    requires s < t < YEAR_10000
    ensures FourDigitYear(StampAt(s)) && FourDigitYear(StampAt(t))
    ensures Before(StampAt(s), StampAt(t))
  {
    FourDigitDate(s / DAY);
    FourDigitDate(t / DAY);
    DayAndTime(s, t);
    if s / DAY < t / DAY {
      CivilOrder(s / DAY, t / DAY);
    }
    StampOrder(CivilFromDays(s / DAY), CivilFromDays(t / DAY), s % DAY, t % DAY);
    TimeFits(CivilFromDays(s / DAY), s % DAY);
    TimeFits(CivilFromDays(t / DAY), t % DAY);
  }

  lemma Ordered(s: nat, t: nat)
    requires s < t < YEAR_10000
    ensures LexLess(NowCompact(s), NowCompact(t))
    ensures LexLess(NowRfc3339(s), NowRfc3339(t))
  {
    StampsInOrder(s, t);
    RenderOrder(StampAt(s), StampAt(t), "", "", "");
    RenderOrder(StampAt(s), StampAt(t), "-", ":", "Z");
  }

  /** Up to the year 10000 the texts have fixed lengths and tell seconds apart. */
  lemma FixedLengthAndInjective(s: nat, t: nat)
    requires s < YEAR_10000 && t < YEAR_10000
    ensures |NowCompact(s)| == 15 && |NowRfc3339(s)| == 20
    ensures NowCompact(s) == NowCompact(t) ==> s == t
    ensures NowRfc3339(s) == NowRfc3339(t) ==> s == t
  {
    FourDigitDate(s / DAY);
    TimeFits(CivilFromDays(s / DAY), s % DAY);
    RenderLength(StampAt(s), "", "", "");
    RenderLength(StampAt(s), "-", ":", "Z");
    LexIrreflexive(NowCompact(s));
    LexIrreflexive(NowRfc3339(s));
    if s < t {
      Ordered(s, t);
    } else if t < s {
      Ordered(t, s);
    }
  }

  ghost predicate SortsByTime(upTo: nat)
    requires upTo <= I64_MAX
  {
    forall s: nat, t: nat | s < t <= upTo :: LexLess(NowCompact(s), NowCompact(t))
  }

  ghost predicate Rfc3339SortsByTime(upTo: nat)
    requires upTo <= I64_MAX
  {
    forall s: nat, t: nat | s < t <= upTo :: LexLess(NowRfc3339(s), NowRfc3339(t))
  }

  lemma YearGrowsADigit(u: string, v: string)
    ensures !LexLess(PadInt(9999, 4) + u, PadInt(10000, 4) + v)
  {
    assert Decimal(99) == "99" && Decimal(999) == "999" && Decimal(9999) == "9999";
    assert Decimal(10) == "10" && Decimal(100) == "100";
    assert Decimal(1000) == "1000" && Decimal(10000) == "10000";
    assert (PadInt(9999, 4) + u)[0] == '9' && (PadInt(10000, 4) + v)[0] == '1';
  }

  lemma RenderDisorder(dash: string, colon: string, end: string)
    ensures !LexLess(Render(Stamp(9999, 12, 31, 23, 59, 59), dash, colon, end),
                     Render(Stamp(10000, 1, 1, 0, 0, 0), dash, colon, end))
  {
    var s := Render(Stamp(9999, 12, 31, 23, 59, 59), dash, colon, end);
    var t := Render(Stamp(10000, 1, 1, 0, 0, 0), dash, colon, end);
    YearGrowsADigit(s[|PadInt(9999, 4)|..], t[|PadInt(10000, 4)|..]);
    assert s == PadInt(9999, 4) + s[|PadInt(9999, 4)|..];
    assert t == PadInt(10000, 4) + t[|PadInt(10000, 4)|..];
  }

  lemma StampOn(secs: nat, c: Date)
    requires secs <= I64_MAX && NamesDay(c, secs / DAY) && -10000 < c.year <= 10000
    ensures StampAt(secs) == StampOf(c, secs % DAY)
  {
    I32YearBounds(c);
    CivilRoundTrip(c);
  }

  lemma Turn(s: nat, t: nat, last: Date, first: Date)
    requires s == YEAR_10000 - 1 && t == YEAR_10000
    requires last == Date(9999, 12, 31) && first == Date(10000, 1, 1)
    ensures NamesDay(last, s / DAY) && NamesDay(first, t / DAY)
    ensures StampOf(last, s % DAY) == Stamp(9999, 12, 31, 23, 59, 59)
    ensures StampOf(first, t % DAY) == Stamp(10000, 1, 1, 0, 0, 0)
  {
    MonthTable(9999);
    assert s % DAY == DAY - 1 && t % DAY == 0;
  }

  lemma TurnOfYear() returns (s: nat, t: nat)
    ensures s < t == YEAR_10000 <= I64_MAX
    ensures !LexLess(NowCompact(s), NowCompact(t)) && !LexLess(NowRfc3339(s), NowRfc3339(t))
  {
    s, t := YEAR_10000 - 1, YEAR_10000;
    var last, first := Date(9999, 12, 31), Date(10000, 1, 1);
    Turn(s, t, last, first);
    StampOn(s, last);
    StampOn(t, first);
    RenderDisorder("", "", "");
    RenderDisorder("-", ":", "Z");
  }

  lemma Unsorted(s: nat, t: nat, upTo: nat)
    requires s < t <= upTo <= I64_MAX
    requires !LexLess(NowCompact(s), NowCompact(t)) && !LexLess(NowRfc3339(s), NowRfc3339(t))
    ensures !SortsByTime(upTo) && !Rfc3339SortsByTime(upTo)
  {
  }

  /** "String sort is chronological order" holds for clocks up to upTo exactly
      when upTo lies before the year 10000, where the year grows a digit. */
  lemma StringSortIsChronological(upTo: nat)
    requires upTo <= I64_MAX
    ensures SortsByTime(upTo) <==> upTo < YEAR_10000
    ensures Rfc3339SortsByTime(upTo) <==> upTo < YEAR_10000
  {
    hide NowCompact, NowRfc3339, LexLess;
    if upTo < YEAR_10000 {
      forall s: nat, t: nat | s < t <= upTo
        ensures LexLess(NowCompact(s), NowCompact(t)) && LexLess(NowRfc3339(s), NowRfc3339(t))
      {
        Ordered(s, t);
      }
    } else {
      var s, t := TurnOfYear();
      Unsorted(s, t, upTo);
    }
  }
}
