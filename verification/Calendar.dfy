/** Two ways of turning a day number into a Gregorian date, and the calendar they are measured against. */
module Calendar {

  datatype Date = Date(year: int, month: int, day: int)

  // ------------------------------------------------------------------
  // The calendar: year by year, month by month, from 1 January 1970
  // ------------------------------------------------------------------

  predicate Leap(y: int) { y % 4 == 0 && (y % 100 != 0 || y % 400 == 0) }

  function YearLength(y: int): nat { if Leap(y) then 366 else 365 }

  function MonthLength(y: int, m: int): nat {
    if m == 2 then (if Leap(y) then 29 else 28)
    else if m == 4 || m == 6 || m == 9 || m == 11 then 30
    else 31
  }

  predicate Valid(d: Date) { d.year >= 1970 && 1 <= d.month <= 12 && 1 <= d.day <= MonthLength(d.year, d.month) }

  /** Days from 1 January 1970 to 1 January of year `y`. */
  function YearStart(y: int): nat
    requires y >= 1970
  {
    if y == 1970 then 0 else YearStart(y - 1) + YearLength(y - 1)
  }

  /** Days from 1 January to the first of month `m`. */
  function MonthStart(y: int, m: int): nat
    requires 1 <= m <= 12
  {
    if m == 1 then 0 else MonthStart(y, m - 1) + MonthLength(y, m - 1)
  }

  /** The number of days before a date. */
  function DayNumber(d: Date): nat
    requires Valid(d)
  {
    YearStart(d.year) + MonthStart(d.year, d.month) + d.day - 1
  }

  /** The days of the week in order from Monday, 1, to Sunday, 7; day 0 was a Thursday. */
  function Weekday(n: nat): nat { if n == 0 then 4 else if Weekday(n - 1) == 7 then 1 else Weekday(n - 1) + 1 }

  lemma {:induction false} WeekdayCycles(n: nat)
    ensures Weekday(n) == (n + 3) % 7 + 1
  {
    if n > 0 { WeekdayCycles(n - 1); }
  }

  // ------------------------------------------------------------------
  // Dates and day numbers are in one-to-one correspondence
  // ------------------------------------------------------------------

  lemma {:induction false} MonthStarts(y: int, m: int)
    requires 1 <= m <= 12
    ensures MonthStart(y, m) + MonthLength(y, m) == (if m == 12 then YearLength(y) else MonthStart(y, m + 1))
    ensures MonthStart(y, m) == [0, 31, 59, 90, 120, 151, 181, 212, 243, 273, 304, 334][m - 1]
                                + (if m > 2 && Leap(y) then 1 else 0)
  {
    if m > 1 { MonthStarts(y, m - 1); }
  }

  lemma {:induction false} MonthsInOrder(y: int, m: int, k: int)
    requires 1 <= m < k <= 12
    ensures MonthStart(y, m) + MonthLength(y, m) <= MonthStart(y, k)
  {
    MonthStarts(y, m);
    if k > m + 1 { MonthsInOrder(y, m, k - 1); }
  }

  lemma {:induction false} YearsInOrder(y: int, k: int)
    requires 1970 <= y < k
    ensures YearStart(y) + YearLength(y) <= YearStart(k)
  {
    if k > y + 1 { YearsInOrder(y, k - 1); }
  }

  lemma {:induction false} WithinYear(d: Date)
    requires Valid(d)
    ensures MonthStart(d.year, d.month) + d.day <= YearLength(d.year)
  {
    MonthStarts(d.year, d.month);
    if d.month < 12 { MonthsInOrder(d.year, d.month, 12); MonthStarts(d.year, 12); }
  }

  /** Different dates have different day numbers. */
  lemma {:induction false} DayNumberInjective(a: Date, b: Date)
    requires Valid(a) && Valid(b) && DayNumber(a) == DayNumber(b)
    ensures a == b
  {
    hide YearStart, MonthStart, YearLength, MonthLength;
    WithinYear(a);
    WithinYear(b);
    if a.year < b.year { YearsInOrder(a.year, b.year); }
    if b.year < a.year { YearsInOrder(b.year, a.year); }
    if a.month < b.month { MonthsInOrder(a.year, a.month, b.month); }
    if b.month < a.month { MonthsInOrder(a.year, b.month, a.month); }
  }

  /** Leap days in the years before `y + 1`. */
  function Leaps(y: int): int { y / 4 - y / 100 + y / 400 }

  lemma {:induction false} YearStartClosed(y: int)
    requires y >= 1970
    ensures YearStart(y) == 365 * (y - 1970) + Leaps(y - 1) - Leaps(1969)
  {
    if y > 1970 {
      YearStartClosed(y - 1);
      LeapCounts(y - 1);
    }
  }

  lemma {:induction false} LeapCounts(y: int)
    ensures Leaps(y) == Leaps(y - 1) + (if Leap(y) then 1 else 0)
  {
    CountsMultiples(y, 4);
    CountsMultiples(y, 100);
    CountsMultiples(y, 400);
    Multiples(y);
  }

  lemma {:induction false} Multiples(y: int)
    ensures y % 400 == 0 ==> y % 100 == 0
    ensures y % 100 == 0 ==> y % 4 == 0
  {
    if y % 400 == 0 { Multiple(4 * (y / 400)); }
    if y % 100 == 0 { Multiple(25 * (y / 100)); }
  }

  lemma Multiple(q: int)
    ensures (100 * q) % 100 == 0 && (4 * q) % 4 == 0
  {
  }

  lemma {:induction false} CountsMultiples(y: int, k: int)
    requires k == 4 || k == 100 || k == 400
    ensures y / k == (y - 1) / k + (if y % k == 0 then 1 else 0)
  {
  }

  // ------------------------------------------------------------------
  // The two algorithms
  // ------------------------------------------------------------------

  /** Month counted from March, 0 to 11, at a day of a year that begins in March. */
  function MonthIndex(day: int): int { (5 * day + 2) / 153 }

  /** The day of that year on which the month begins. */
  function MarchStart(mp: int): int { (153 * mp + 2) / 5 }

  /** Civil date at a day of an era of 400 years that begins in March. */
  function CivilOfEra(era: int, doe: int): Date {
    var yoe := (doe - doe / 1460 + doe / 36_524 - doe / 146_096) / 365;
    var doy := doe - (365 * yoe + yoe / 4 - yoe / 100);
    var mp := MonthIndex(doy);
    var m := if mp < 10 then mp + 3 else mp - 9;
    Date(yoe + era * 400 + (if m <= 2 then 1 else 0), m, doy - MarchStart(mp) + 1)
  }

  function DaysToYmd(days: nat): (Date, nat) {
    var z := days + 719_468;
    var era := z / 146_097;
    (CivilOfEra(era, z - era * 146_097), (days + 3) % 7 + 1)
  }

  /** Civil date from the century `b` and the day of it of a Julian day number. */
  function JulianDate(b: int, c: int): Date {
    var d := (4 * c + 3) / 1461;
    var e := c - (1461 * d) / 4;
    var m := MonthIndex(e);
    Date(100 * b + d - 4800 + m / 10, m + 3 - 12 * (m / 10), e - MarchStart(m) + 1)
  }

  function FromJulianDay(days: nat): (Date, nat) {
    var jdn := days + 2_440_588;
    var a := jdn + 32_044;
    var b := (4 * a + 3) / 146_097;
    var dow := (jdn + 1) % 7;
    (JulianDate(b, a - (146_097 * b) / 4), if dow == 0 then 7 else dow)
  }

  // ------------------------------------------------------------------
  // A day of an era: century, four-year cycle, year of the cycle, day of the year
  // ------------------------------------------------------------------

  datatype Place = Place(century: nat, cycle: nat, year: nat, day: nat)
  {
    /** Years run from March to February, so a leap day is the last day of its year. */
    predicate Ok() {
      && century <= 3 && cycle <= 24 && year <= 3 && day <= 365
      && (day == 365 ==> year == 3 && (cycle < 24 || century == 3))
    }

    function DayOfEra(): nat { 36_524 * century + 1461 * cycle + 365 * year + day }

    function YearOfEra(): nat { 100 * century + 4 * cycle + year }
  }

  function Min3(n: nat): nat { if n > 3 then 3 else n }

  /** Every day of an era has its place. */
  function PlaceOf(doe: nat): (p: Place)
    requires doe < 146_097
    ensures p.Ok() && p.DayOfEra() == doe
  {
    var c := Min3(doe / 36_524);
    var r := doe - 36_524 * c;
    var t := r / 1461;
    var q := r - 1461 * t;
    var s := Min3(q / 365);
    Place(c, t, s, q - 365 * s)
  }

  /** The quotients that count the leap days of an era up to a day. */
  lemma {:induction false} Quotients(p: Place)
    requires p.Ok()
    ensures var doe := p.DayOfEra();
            && doe / 36_524 - doe / 146_096 == p.century
            && doe / 1460 == 25 * p.century + p.cycle
                             + (if 24 * p.century + p.cycle + 365 * p.year + p.day >= 1460 then 1 else 0)
  {
    var doe := p.DayOfEra();
    var w := 24 * p.century + p.cycle + 365 * p.year + p.day;
    assert doe == 1460 * (25 * p.century + p.cycle) + w;
  }

  lemma {:induction false} YearOfEraFound(p: Place)
    requires p.Ok()
    ensures var doe := p.DayOfEra(); (doe - doe / 1460 + doe / 36_524 - doe / 146_096) / 365 == p.YearOfEra()
  {
    Quotients(p);
    var doe := p.DayOfEra();
    var f := doe - doe / 1460 + doe / 36_524 - doe / 146_096;
    var late := if 24 * p.century + p.cycle + 365 * p.year + p.day >= 1460 then 1 else 0;
    assert f == 365 * p.YearOfEra() + (p.day - late);
  }

  lemma {:induction false} DayOfYearFound(p: Place)
    requires p.Ok()
    ensures var y := p.YearOfEra(); p.DayOfEra() - (365 * y + y / 4 - y / 100) == p.day
  {
    assert p.YearOfEra() / 4 == 25 * p.century + p.cycle;
  }

  /** The Julian-day quotients find the same place. */
  lemma {:induction false} JulianQuotients(p: Place)
    requires p.Ok()
    ensures var doe := p.DayOfEra();
            && (4 * doe + 3) / 146_097 == p.century && doe - 146_097 * p.century / 4 == doe - 36_524 * p.century
    ensures var r := p.DayOfEra() - 36_524 * p.century;
            (4 * r + 3) / 1461 == 4 * p.cycle + p.year && r - 1461 * (4 * p.cycle + p.year) / 4 == p.day
  {
  }

  // ------------------------------------------------------------------
  // From a place to a date
  // ------------------------------------------------------------------

  lemma {:induction false} MonthFound(day: nat)
    requires day <= 365
    ensures 0 <= MonthIndex(day) <= 11 && MarchStart(MonthIndex(day)) <= day < MarchStart(MonthIndex(day) + 1)
    ensures MonthIndex(day) == 11 ==> day >= 337
  {
  }

  lemma {:induction false} MarchStarts(mp: nat)
    requires mp <= 11
    ensures MarchStart(mp) == [0, 31, 61, 92, 122, 153, 184, 214, 245, 275, 306, 337][mp]
    ensures mp < 11 ==> MarchStart(mp + 1) - MarchStart(mp) == [31, 30, 31, 30, 31, 31, 30, 31, 30, 31, 31][mp]
  {
  }

  /** The date at a day of a March year. */
  function MarchDate(y: int, day: int): Date {
    var mp := MonthIndex(day);
    Date(if mp < 10 then y else y + 1, if mp < 10 then mp + 3 else mp - 9, day - MarchStart(mp) + 1)
  }

  lemma {:induction false} MarchDateIs(y: nat, day: nat)
    requires y >= 1969 && day <= 365 && (y == 1969 ==> day >= 306) && (day == 365 ==> Leap(y + 1))
    ensures Valid(MarchDate(y, day))
    ensures DayNumber(MarchDate(y, day)) == 365 * y + Leaps(y) + day - 719_468
  {
    hide YearStart, MonthStart, Leaps, Leap;
    MonthFound(day);
    var mp := MonthIndex(day);
    hide MonthIndex, MarchStart;
    MarchStarts(mp);
    var d := MarchDate(y, day);
    MonthStarts(d.year, d.month);
    YearStartClosed(d.year);
    LeapCounts(y);
    LeapsBefore1970();
  }

  lemma LeapsBefore1970()
    ensures Leaps(1969) == 477
  {
  }

  lemma {:induction false} EraLeaps(era: nat, p: Place)
    requires p.Ok()
    ensures var y := 400 * era + p.YearOfEra();
            && 146_097 * era + p.DayOfEra() == 365 * y + Leaps(y) + p.day
            && (p.day == 365 ==> Leap(y + 1))
  {
    hide Leap, Leaps;
    var y := 400 * era + p.YearOfEra();
    EraQuotients(y, era, p);
    if p.day == 365 {
      if p.cycle < 24 { LeapInCentury(y + 1, 4 * era + p.century, p.cycle + 1); } else { LeapEra(y + 1, era + 1); }
    }
  }

  lemma {:induction false} EraQuotients(y: nat, era: nat, p: Place)
    requires p.Ok() && y == 400 * era + p.YearOfEra()
    ensures Leaps(y) == 97 * era + 24 * p.century + p.cycle
  {
    assert y == 4 * (100 * era + 25 * p.century + p.cycle) + p.year;
    assert y == 100 * (4 * era + p.century) + (4 * p.cycle + p.year);
    assert y / 4 == 100 * era + 25 * p.century + p.cycle;
    assert y / 100 == 4 * era + p.century;
    assert y / 400 == era;
  }

  lemma LeapInCentury(y: nat, c: nat, q: nat)
    requires y == 100 * c + 4 * q && 1 <= q <= 24
    ensures Leap(y)
  {
    assert y == 4 * (25 * c + q);
  }

  lemma LeapEra(y: nat, e: nat)
    requires y == 400 * e
    ensures Leap(y)
  {
    assert y == 4 * (100 * e);
  }

  /** Where day `n` lies: an era, a place in it and, from 1970 on, a late enough year. */
  lemma {:induction false} Locate(n: nat) returns (era: nat, p: Place)
    ensures p.Ok() && n + 719_468 == 146_097 * era + p.DayOfEra()
    ensures var y := 400 * era + p.YearOfEra(); y >= 1969 && (y == 1969 ==> p.day >= 306)
  {
    era := (n + 719_468) / 146_097;
    p := PlaceOf((n + 719_468) % 146_097);
    EraLeaps(era, p);
  }

  lemma {:induction false} CivilIsMarchDate(n: nat, era: nat, p: Place)
    requires p.Ok() && n + 719_468 == 146_097 * era + p.DayOfEra()
    ensures DaysToYmd(n) == (MarchDate(400 * era + p.YearOfEra(), p.day), (n + 3) % 7 + 1)
  {
    hide MonthIndex, MarchStart, Place.YearOfEra, Place.DayOfEra;
    var doe := p.DayOfEra();
    assert 0 <= doe < 146_097 by { InEra(p); }
    assert (n + 719_468) / 146_097 == era;
    YearOfEraFound(p);
    DayOfYearFound(p);
    MonthFound(p.day);
  }

  lemma InEra(p: Place)
    requires p.Ok()
    ensures p.DayOfEra() < 146_097
  {
  }

  lemma {:induction false} JulianIsMarchDate(n: nat, era: nat, p: Place)
    requires p.Ok() && n + 719_468 == 146_097 * era + p.DayOfEra()
    ensures FromJulianDay(n) == (MarchDate(400 * era + p.YearOfEra(), p.day), (n + 3) % 7 + 1)
  {
    hide MarchDate, JulianDate, Place.DayOfEra;
    JulianCentury(era + 12, p);
    JulianYear(4 * (era + 12) + p.century, p);
    JulianWeekday(n);
  }

  lemma JulianWeekday(n: nat)
    ensures var dow := (n + 2_440_588 + 1) % 7; (if dow == 0 then 7 else dow) == (n + 3) % 7 + 1
  {
  }

  lemma {:induction false} JulianCentury(era: nat, p: Place)
    requires p.Ok()
    ensures var a := 146_097 * era + p.DayOfEra();
            var b := (4 * a + 3) / 146_097;
            b == 4 * era + p.century && a - (146_097 * b) / 4 == p.DayOfEra() - 36_524 * p.century
  {
    JulianQuotients(p);
    var a := 146_097 * era + p.DayOfEra();
    assert 4 * a + 3 == 146_097 * (4 * era) + (4 * p.DayOfEra() + 3);
    assert 146_097 * (4 * era + p.century) == 4 * (146_097 * era) + 146_097 * p.century;
  }

  lemma {:induction false} JulianYear(b: int, p: Place)
    requires p.Ok()
    ensures JulianDate(b, p.DayOfEra() - 36_524 * p.century) == MarchDate(100 * b + 4 * p.cycle + p.year - 4800, p.day)
  {
    hide MonthIndex, MarchStart, Place.DayOfEra;
    JulianQuotients(p);
    MonthFound(p.day);
  }

  /**
   * For every day number the civil algorithm gives the one valid date of the calendar that has that
   * many days before it, and its day of the week.
   */
  lemma {:induction false} CivilDateIsRight(n: nat, other: Date)
    ensures var (d, w) := DaysToYmd(n); Valid(d) && DayNumber(d) == n && w == Weekday(n)
    ensures Valid(other) ==> (DayNumber(other) == n <==> other == DaysToYmd(n).0)
  {
    hide DaysToYmd, DayNumber, MarchDate, Valid;
    var era, p := Locate(n);
    CivilIsMarchDate(n, era, p);
    EraLeaps(era, p);
    MarchDateIs(400 * era + p.YearOfEra(), p.day);
    WeekdayCycles(n);
    if Valid(other) && DayNumber(other) == n { DayNumberInjective(other, DaysToYmd(n).0); }
  }

  /** The Julian-day arithmetic gives the same date and the same day of the week. */
  lemma {:induction false} AlgorithmsAgree(n: nat)
    ensures FromJulianDay(n) == DaysToYmd(n)
  {
    hide DaysToYmd, FromJulianDay, MarchDate;
    var era, p := Locate(n);
    CivilIsMarchDate(n, era, p);
    JulianIsMarchDate(n, era, p);
  }

  /** And every date from 1970 on is the date of its own day number. */
  lemma {:induction false} CivilInvertsDayNumber(d: Date)
    requires Valid(d)
    ensures DaysToYmd(DayNumber(d)) == (d, Weekday(DayNumber(d)))
  {
    CivilDateIsRight(DayNumber(d), d);
  }
}
