/** Dates without a date library: the closed-form conversion of a Unix time, against
    walking the Gregorian calendar one day at a time from 1 January 1970. */
module Calendar {
  import opened Division
  import opened Numerals

  datatype Date = Date(year: int, month: int, day: int)

  // ----- The Gregorian calendar ------------------------------------------------

  predicate Leap(y: int) {
    y % 4 == 0 && (y % 100 != 0 || y % 400 == 0)
  }

  function DaysInMonth(y: int, m: int): int {
    if m == 2 then (if Leap(y) then 29 else 28)
    else if m == 4 || m == 6 || m == 9 || m == 11 then 30
    else 31
  }

  predicate Valid(x: Date) {
    1 <= x.month <= 12 && 1 <= x.day <= DaysInMonth(x.year, x.month)
  }

  function NextDay(x: Date): Date {
    if x.day < DaysInMonth(x.year, x.month) then Date(x.year, x.month, x.day + 1)
    else if x.month < 12 then Date(x.year, x.month + 1, 1)
    else Date(x.year + 1, 1, 1)
  }

  /** The date `n` days after the epoch, by walking. */
  function Walk(n: nat): (x: Date)
    ensures Valid(x) && x.year >= 1970
  {
    if n == 0 then Date(1970, 1, 1) else NextDay(Walk(n - 1))
  }

  // ----- The closed form -----------------------------------------------------------

  /** Days before year `yoe` of a 400-year era of years beginning on 1 March. */
  function YearStart(yoe: int): int {
    365 * yoe + yoe / 4 - yoe / 100
  }

  function YearOfEra(doe: int): int {
    (doe - doe / 1460 + doe / 36524 - doe / 146096) / 365
  }

  /** The date of day `doy` (from 1 March) of year `y` (beginning 1 March). */
  function FromMarch(y: int, doy: int): Date {
    var mp := (5 * doy + 2) / 153;
    var day := doy - (153 * mp + 2) / 5 + 1;
    var month := if mp < 10 then mp + 3 else mp - 9;
    Date(if month <= 2 then y + 1 else y, month, day)
  }

  /** The date part of `human_time`. */
  function CivilFromDays(days: int): Date {
    var z := days + 719468;
    var era := (if z >= 0 then z else z - 146096) / 146097;
    FromEra(era, z - era * 146097)
  }

  /** The date of day `doe` of an era. */
  function FromEra(era: int, doe: int): Date {
    var yoe := YearOfEra(doe);
    FromMarch(yoe + era * 400, doe - YearStart(yoe))
  }

  // ----- Years ------------------------------------------------------------------------

  /** `yoe` is the year of the era that day `doe` falls in. */
  predicate InYear(doe: int, yoe: int) {
    0 <= yoe <= 399 && YearStart(yoe) <= doe && (doe < YearStart(yoe + 1) || (yoe == 399 && doe <= 146096))
  }

  /** A day of the era as centuries, four-year cycles, years and days. */
  predicate Parts(c: int, q: int, s: int, doy: int) {
    0 <= c <= 3 && 0 <= q <= 24 && 0 <= s <= 3 && 0 <= doy <= 365
    && (doy == 365 ==> s == 3 && (q < 24 || c == 3))
  }

  function Day(c: int, q: int, s: int, doy: int): int {
    36524 * c + 1461 * q + 365 * s + doy
  }

  lemma SplitDay(doe: int) returns (c: int, q: int, s: int, doy: int)
    requires 0 <= doe <= 146096
    ensures Parts(c, q, s, doy) && doe == Day(c, q, s, doy)
  {
    c := if doe / 36524 > 3 then 3 else doe / 36524;
    var r := doe - 36524 * c;
    q := if r / 1461 > 24 then 24 else r / 1461;
    var r' := r - 1461 * q;
    s := if r' / 365 > 3 then 3 else r' / 365;
    doy := r' - 365 * s;
  }

  lemma YearStartOfParts(c: int, q: int, s: int)
    requires 0 <= c <= 3 && 0 <= q <= 24 && 0 <= s <= 3
    ensures YearStart(100 * c + 4 * q + s) == Day(c, q, s, 0)
  {
    assert (100 * c + 4 * q + s) / 4 == 25 * c + q;
    assert (100 * c + 4 * q + s) / 100 == c;
  }

  /** The correction terms of the closed form add up to a year's worth of days. */
  lemma YearOfParts(c: int, q: int, s: int, doy: int)
    requires Parts(c, q, s, doy)
    ensures YearOfEra(Day(c, q, s, doy)) == 100 * c + 4 * q + s
  {
    var doe := Day(c, q, s, doy);
    var left := 24 * c + q + 365 * s + doy;
    var e1 := if left >= 1460 then 1 else 0;
    assert doe == 1460 * (25 * c + q) + left;
    Quotient(doe, 1460, 25 * c + q + e1);
    var e2 := if 1461 * q + 365 * s + doy == 36524 then 1 else 0;
    Quotient(doe, 36524, c + e2);
    var e3 := if doe == 146096 then 1 else 0;
    Quotient(doe, 146096, e3);
    Quotient(doe - (25 * c + q + e1) + (c + e2) - e3, 365, 100 * c + 4 * q + s);
  }

  lemma YearOfEraIsRight(doe: int)
    requires 0 <= doe <= 146096
    ensures InYear(doe, YearOfEra(doe))
  {
    var c, q, s, doy := SplitDay(doe);
    YearOfParts(c, q, s, doy);
    YearStartOfParts(c, q, s);
    NextYearStart(c, q, s);
  }

  lemma NextYearStart(c: int, q: int, s: int)
    requires 0 <= c <= 3 && 0 <= q <= 24 && 0 <= s <= 3
    ensures YearStart(100 * c + 4 * q + s + 1) == Day(c, q, s, 0) + 365 + if s == 3 && q < 24 then 1 else 0
  {
    if s < 3 {
      YearStartOfParts(c, q, s + 1);
    } else if q < 24 {
      YearStartOfParts(c, q + 1, 0);
    } else if c < 3 {
      YearStartOfParts(c + 1, 0, 0);
    }
  }

  // ----- Months -------------------------------------------------------------------------

  /** First day of month `mp` (0 is March) in a year beginning 1 March. */
  function MonthStart(mp: int): int {
    (153 * mp + 2) / 5
  }

  /** The length of month `mp` in a year with `last` days in February. */
  function MonthLength(mp: int, last: int): int {
    if mp == 11 then last else MonthStart(mp + 1) - MonthStart(mp)
  }

  lemma MonthOfDay(doy: int)
    requires 0 <= doy <= 365
    ensures var mp := (5 * doy + 2) / 153;
            0 <= mp <= 11 && MonthStart(mp) <= doy && (mp < 11 ==> doy < MonthStart(mp + 1))
  {
  }

  lemma MonthIsUnique(doy: int, mp: int)
    requires 0 <= mp <= 11 && 0 <= doy <= 365
    requires MonthStart(mp) <= doy && (mp < 11 ==> doy < MonthStart(mp + 1))
    ensures (5 * doy + 2) / 153 == mp
  {
  }

  lemma MarchMonths(y: int, mp: int)
    requires 0 <= mp <= 11
    ensures var month := if mp < 10 then mp + 3 else mp - 9;
            var year := if month <= 2 then y + 1 else y;
            && 1 <= month <= 12
            && DaysInMonth(year, month) == MonthLength(mp, if Leap(y + 1) then 29 else 28)
  {
  }

  /** Within a year beginning 1 March, the next day of the year is the next date. */
  lemma NextInYear(y: int, doy: int)
    requires 0 <= doy && doy + 1 < 365 + if Leap(y + 1) then 1 else 0
    ensures Valid(FromMarch(y, doy)) && FromMarch(y, doy + 1) == NextDay(FromMarch(y, doy))
  {
    var mp := (5 * doy + 2) / 153;
    MonthOfDay(doy);
    MarchMonths(y, mp);
    if mp < 11 && doy + 1 == MonthStart(mp + 1) {
      MonthIsUnique(doy + 1, mp + 1);
    } else {
      MonthIsUnique(doy + 1, mp);
    }
  }

  /** After the last day of February comes 1 March of the next such year. */
  lemma NextYear(y: int)
    ensures var last := if Leap(y + 1) then 365 else 364;
            Valid(FromMarch(y, last)) && FromMarch(y + 1, 0) == NextDay(FromMarch(y, last))
  {
    var last := if Leap(y + 1) then 365 else 364;
    MonthIsUnique(last, 11);
    MonthIsUnique(0, 0);
  }

  // ----- One day later -------------------------------------------------------------------

  /** Length of year `yoe` of an era: leap when the February at its end is. */
  lemma YearLength(c: int, q: int, s: int, era: int)
    requires 0 <= c <= 3 && 0 <= q <= 24 && 0 <= s <= 3
    ensures Leap(100 * c + 4 * q + s + era * 400 + 1) <==> s == 3 && (q < 24 || c == 3)
  {
    var y := 100 * c + 4 * q + s + era * 400 + 1;
    if s < 3 {
      Remainder(y, 4, 100 * era + 25 * c + q, s + 1);
    } else {
      Remainder(y, 4, 100 * era + 25 * c + q + 1, 0);
      if q < 24 {
        Remainder(y, 100, 4 * era + c, 4 * q + 4);
      } else {
        Remainder(y, 100, 4 * era + c + 1, 0);
        if c < 3 {
          Remainder(y, 400, era, 100 * c + 100);
        } else {
          Remainder(y, 400, era + 1, 0);
        }
      }
    }
  }

  lemma FromEraIs(era: int, doe: int, yoe: int, y: int, doy: int)
    requires yoe == YearOfEra(doe) && y == yoe + era * 400 && doy == doe - YearStart(yoe)
    ensures FromEra(era, doe) == FromMarch(y, doy)
  {
  }

  lemma EraOfParts(c: int, q: int, s: int, doy: int, era: int)
    requires Parts(c, q, s, doy)
    ensures FromEra(era, Day(c, q, s, doy)) == FromMarch(100 * c + 4 * q + s + era * 400, doy)
  {
    YearOfParts(c, q, s, doy);
    YearStartOfParts(c, q, s);
    FromEraIs(era, Day(c, q, s, doy), 100 * c + 4 * q + s, 100 * c + 4 * q + s + era * 400, doy);
  }

  function LastDay(c: int, q: int, s: int): int {
    if s == 3 && (q < 24 || c == 3) then 365 else 364
  }

  /** The first day of the year after: in the same cycle, ... */
  lemma NextInCycle(c: int, q: int, s: int)
    requires 0 <= c <= 3 && 0 <= q <= 24 && 0 <= s < 3
    ensures Parts(c, q, s + 1, 0) && Day(c, q, s + 1, 0) == Day(c, q, s, LastDay(c, q, s)) + 1
  {
  }

  /** ... opening a cycle, ... */
  lemma NextCycle(c: int, q: int)
    requires 0 <= c <= 3 && 0 <= q < 24
    ensures Parts(c, q + 1, 0, 0) && Day(c, q + 1, 0, 0) == Day(c, q, 3, LastDay(c, q, 3)) + 1
  {
  }

  /** ... a century, ... */
  lemma NextCentury(c: int)
    requires 0 <= c < 3
    ensures Parts(c + 1, 0, 0, 0) && Day(c + 1, 0, 0, 0) == Day(c, 24, 3, LastDay(c, 24, 3)) + 1
  {
  }

  /** ... or ending the era. */
  lemma EraEnds(c: int, q: int, s: int, doy: int)
    requires Parts(c, q, s, doy)
    ensures Day(c, q, s, doy) == 146096 <==> c == 3 && q == 24 && s == 3 && doy == 365
    ensures Day(c, q, s, doy) <= 146096
  {
  }

  lemma FirstDayOfEra(doe: int)
    requires doe == 0
    ensures YearOfEra(doe) == 0 && YearStart(doe) == 0
  {
  }

  lemma NextFromMarch(y: int, doy: int)
    requires 0 <= doy < 365 + if Leap(y + 1) then 1 else 0
    ensures Valid(FromMarch(y, doy))
    ensures NextDay(FromMarch(y, doy)) ==
            if doy + 1 < 365 + (if Leap(y + 1) then 1 else 0) then FromMarch(y, doy + 1) else FromMarch(y + 1, 0)
  {
    if doy + 1 < 365 + if Leap(y + 1) then 1 else 0 {
      NextInYear(y, doy);
    } else {
      NextYear(y);
    }
  }

  lemma NewYearStep(c: int, q: int, s: int, era: int)
    requires Parts(c, q, s, LastDay(c, q, s))
    ensures var doe, y := Day(c, q, s, LastDay(c, q, s)), 100 * c + 4 * q + s + era * 400;
            (if doe < 146096 then FromEra(era, doe + 1) else FromEra(era + 1, 0)) == FromMarch(y + 1, 0)
  {
    hide FromMarch, FromEra, YearStart, YearOfEra;
    EraEnds(c, q, s, LastDay(c, q, s));
    if s < 3 {
      NextInCycle(c, q, s);
      EraOfParts(c, q, s + 1, 0, era);
    } else if q < 24 {
      NextCycle(c, q);
      EraOfParts(c, q + 1, 0, 0, era);
    } else if c < 3 {
      NextCentury(c);
      EraOfParts(c + 1, 0, 0, 0, era);
    } else {
      FirstDayOfEra(0);
      FromEraIs(era + 1, 0, 0, (era + 1) * 400, 0);
    }
  }

  lemma SameYearStep(c: int, q: int, s: int, doy: int, era: int)
    requires Parts(c, q, s, doy) && doy < LastDay(c, q, s)
    ensures Day(c, q, s, doy) < 146096
    ensures FromEra(era, Day(c, q, s, doy) + 1) == FromMarch(100 * c + 4 * q + s + era * 400, doy + 1)
  {
    EraEnds(c, q, s, doy);
    EraOfParts(c, q, s, doy + 1, era);
  }

  lemma DateStep(y: int, doy: int, last: int, x: Date, x': Date)
    requires last == (if Leap(y + 1) then 365 else 364) && 0 <= doy <= last
    requires x == FromMarch(y, doy) && x' == if doy < last then FromMarch(y, doy + 1) else FromMarch(y + 1, 0)
    ensures Valid(x) && x' == NextDay(x)
  {
    NextFromMarch(y, doy);
  }

  lemma NextQuotient(z: int, d: int)
    requires z >= 0 && d > 1
    ensures if z % d < d - 1 then (z + 1) / d == z / d && (z + 1) % d == z % d + 1
            else (z + 1) / d == z / d + 1 && (z + 1) % d == 0
  {
    assert z == z / d * d + z % d;
    if z % d < d - 1 {
      Remainder(z + 1, d, z / d, z % d + 1);
      Quotient(z + 1, d, z / d);
    } else {
      Remainder(z + 1, d, z / d + 1, 0);
      Quotient(z + 1, d, z / d + 1);
    }
  }

  lemma CivilOfEra(days: int, era: int, doe: int)
    requires days >= 0 && era == (days + 719468) / 146097 && doe == (days + 719468) % 146097
    ensures CivilFromDays(days) == FromEra(era, doe)
  {
    assert days + 719468 - era * 146097 == doe;
  }

  /** The day's place in its era, and the next day's. */
  lemma PlaceInEra(days: nat) returns (era: int, doe: int)
    ensures 0 <= doe <= 146096 && CivilFromDays(days) == FromEra(era, doe)
    ensures CivilFromDays(days + 1) == if doe < 146096 then FromEra(era, doe + 1) else FromEra(era + 1, 0)
  {
    hide FromEra, CivilFromDays;
    var z := days + 719468;
    era, doe := z / 146097, z % 146097;
    CivilOfEra(days, era, doe);
    NextQuotient(z, 146097);
    if doe < 146096 {
      CivilOfEra(days + 1, era, doe + 1);
    } else {
      CivilOfEra(days + 1, era + 1, 0);
    }
  }

  lemma CivilStep(days: nat)
    ensures Valid(CivilFromDays(days)) && CivilFromDays(days + 1) == NextDay(CivilFromDays(days))
  {
    hide FromMarch, FromEra, YearOfEra, YearStart, CivilFromDays, NextDay, Valid;
    var era, doe := PlaceInEra(days);
    var c, q, s, doy := SplitDay(doe);
    EraOfParts(c, q, s, doy, era);
    YearLength(c, q, s, era);
    if doy < LastDay(c, q, s) {
      SameYearStep(c, q, s, doy, era);
    } else {
      NewYearStep(c, q, s, era);
    }
    DateStep(100 * c + 4 * q + s + era * 400, doy, LastDay(c, q, s), CivilFromDays(days), CivilFromDays(days + 1));
  }

  lemma EpochIsRight()
    ensures CivilFromDays(0) == Date(1970, 1, 1)
  {
    assert 719468 / 146097 == 4;
    EraOfParts(3, 17, 1, 306, 4);
  }

  /** For every day since the epoch, the closed form is the date reached by walking. */
  lemma {:induction false} ClosedFormIsWalk(days: nat)
    ensures CivilFromDays(days) == Walk(days) && Valid(Walk(days))
  {
    hide CivilFromDays, FromEra, NextDay, Valid;
    CivilStep(days);
    if days == 0 {
      EpochIsRight();
    } else {
      ClosedFormIsWalk(days - 1);
      CivilStep(days - 1);
    }
  }

  // ----- Back to the day number -----------------------------------------------------------

  function DaysInYear(y: int): int {
    if Leap(y) then 366 else 365
  }

  /** Days from the epoch to 1 January of `y`, counted year by year. */
  function DaysBeforeYear(y: int): int
    requires y >= 1970
    decreases y
  {
    if y == 1970 then 0 else DaysBeforeYear(y - 1) + DaysInYear(y - 1)
  }

  /** Days from 1 January to the first of `m`, counted month by month. */
  function DaysBeforeMonth(y: int, m: int): int
    requires 1 <= m <= 12
    decreases m
  {
    if m == 1 then 0 else DaysBeforeMonth(y, m - 1) + DaysInMonth(y, m - 1)
  }

  function DayNumber(x: Date): int
    requires Valid(x) && x.year >= 1970
  {
    DaysBeforeYear(x.year) + DaysBeforeMonth(x.year, x.month) + x.day - 1
  }

  lemma YearIsItsMonths(y: int)
    ensures DaysBeforeMonth(y, 12) + 31 == DaysInYear(y)
  {
    assert DaysBeforeMonth(y, 2) == 31;
    assert DaysBeforeMonth(y, 4) == DaysBeforeMonth(y, 2) + DaysInMonth(y, 2) + 31;
    assert DaysBeforeMonth(y, 6) == DaysBeforeMonth(y, 4) + 61;
    assert DaysBeforeMonth(y, 8) == DaysBeforeMonth(y, 6) + 61;
    assert DaysBeforeMonth(y, 10) == DaysBeforeMonth(y, 8) + 61;
    assert DaysBeforeMonth(y, 12) == DaysBeforeMonth(y, 10) + 61;
  }

  lemma NextDayCounts(x: Date)
    requires Valid(x) && x.year >= 1970
    ensures Valid(NextDay(x)) && NextDay(x).year >= 1970 && DayNumber(NextDay(x)) == DayNumber(x) + 1
  {
    if x.day == DaysInMonth(x.year, x.month) && x.month == 12 {
      YearIsItsMonths(x.year);
    }
  }

  /** The date `n` days after the epoch: valid, not before 1970, and `n` when counted. */
  ghost predicate Counts(x: Date, n: int) {
    Valid(x) && x.year >= 1970 && DayNumber(x) == n
  }

  lemma EpochCounts(x: Date)
    requires x == Date(1970, 1, 1)
    ensures Counts(x, 0)
  {
  }

  lemma NextCounts(x: Date, y: Date, n: int)
    requires Counts(x, n) && y == NextDay(x)
    ensures Counts(y, n + 1)
  {
    NextDayCounts(x);
  }

  lemma {:induction false} CivilCounts(days: nat)
    ensures Counts(CivilFromDays(days), days)
  {
    hide Counts, CivilFromDays, FromEra, NextDay, Valid;
    if days == 0 {
      EpochIsRight();
      EpochCounts(CivilFromDays(0));
    } else {
      CivilCounts(days - 1);
      CivilStep(days - 1);
      NextCounts(CivilFromDays(days - 1), CivilFromDays(days), days - 1);
    }
  }

  /** Counting the days of the date the closed form gives leads back to the day number. */
  lemma DayNumberUndoesCivil(days: nat)
    ensures CivilFromDays(days).year >= 1970 && Valid(CivilFromDays(days))
    ensures DayNumber(CivilFromDays(days)) == days
  {
    hide CivilFromDays, FromEra, NextDay, Valid, DayNumber;
    CivilCounts(days);
  }

  lemma {:induction false} MonthsFitYear(y: int, m: int)
    requires 1 <= m <= 12
    ensures 0 <= DaysBeforeMonth(y, m) && DaysBeforeMonth(y, m) + DaysInMonth(y, m) <= DaysInYear(y)
    decreases 12 - m
  {
    if m == 12 {
      YearIsItsMonths(y);
      MonthsArePositive(y, m);
    } else {
      MonthsFitYear(y, m + 1);
      MonthsArePositive(y, m);
    }
  }

  lemma {:induction false} MonthsArePositive(y: int, m: int)
    requires 1 <= m <= 12
    ensures 0 <= DaysBeforeMonth(y, m)
    decreases m
  {
    if m > 1 {
      MonthsArePositive(y, m - 1);
    }
  }

  lemma {:induction false} LaterMonth(y: int, m: int, n: int)
    requires 1 <= m < n <= 12
    ensures DaysBeforeMonth(y, m) + DaysInMonth(y, m) <= DaysBeforeMonth(y, n)
    decreases n
  {
    if m < n - 1 {
      LaterMonth(y, m, n - 1);
    }
  }

  lemma {:induction false} LaterYear(y: int, z: int)
    requires 1970 <= y < z
    ensures DaysBeforeYear(y) + DaysInYear(y) <= DaysBeforeYear(z)
    decreases z
  {
    if y < z - 1 {
      LaterYear(y, z - 1);
    }
  }

  predicate Before(x: Date, y: Date) {
    x.year < y.year || (x.year == y.year && (x.month < y.month || (x.month == y.month && x.day < y.day)))
  }

  /** Day numbers order the dates. */
  lemma DayNumberIsMonotone(x: Date, y: Date)
    requires Valid(x) && Valid(y) && x.year >= 1970 && y.year >= 1970 && Before(x, y)
    ensures DayNumber(x) < DayNumber(y)
  {
    MonthsFitYear(x.year, x.month);
    MonthsArePositive(y.year, y.month);
    if x.year < y.year {
      LaterYear(x.year, y.year);
    } else if x.month < y.month {
      LaterMonth(x.year, x.month, y.month);
    }
  }

  lemma {:induction false} DaysBeforeYearIsPositive(y: int)
    requires y >= 1970
    ensures DaysBeforeYear(y) >= 0
    decreases y
  {
    if y > 1970 {
      DaysBeforeYearIsPositive(y - 1);
    }
  }

  /** Every valid date from 1970 on is the closed form of its own day number. */
  lemma CivilUndoesDayNumber(x: Date)
    requires Valid(x) && x.year >= 1970
    ensures DayNumber(x) >= 0 && CivilFromDays(DayNumber(x)) == x
  {
    DaysBeforeYearIsPositive(x.year);
    MonthsArePositive(x.year, x.month);
    var y := CivilFromDays(DayNumber(x));
    DayNumberUndoesCivil(DayNumber(x));
    if Before(x, y) {
      DayNumberIsMonotone(x, y);
    } else if Before(y, x) {
      DayNumberIsMonotone(y, x);
    }
  }

  // ----- The printed time --------------------------------------------------------------------

  /** `human_time`: "YYYY-MM-DD HH:MM:SS UTC". */
  function HumanTime(ts: nat): string {
    ClosedFormIsWalk(ts / 86400);
    TimeText(CivilFromDays(ts / 86400), ts % 86400)
  }

  /** A date and a second of it, printed. */
  function TimeText(x: Date, rem: nat): string
    requires Valid(x) && x.year >= 1970
  {
    Printed(x.year, x.month, x.day, rem / 3600, rem % 3600 / 60, rem % 60)
  }

  /** The same time, on the date reached by walking. */
  function WalkedTime(ts: nat): string {
    TimeText(Walk(ts / 86400), ts % 86400)
  }

  function Printed(year: nat, month: nat, day: nat, hh: nat, mm: nat, ss: nat): string {
    Padded(year, 4) + "-" + Clock(month, day, hh, mm, ss)
  }

  function Clock(month: nat, day: nat, hh: nat, mm: nat, ss: nat): string {
    Padded(month, 2) + "-" + Padded(day, 2) + " " + Padded(hh, 2) + ":" + Padded(mm, 2) + ":" + Padded(ss, 2) + " UTC"
  }

  lemma TwoDigits(n: nat)
    requires n < 100
    ensures |Padded(n, 2)| == 2
  {
    if n >= 10 {
      assert Numeral(n, 10) == Numeral(n / 10, 10) + [Digit(n % 10)];
    }
  }

  lemma SameClock(a: nat, b: nat, c: nat, d: nat, e: nat, a': nat, b': nat, c': nat, d': nat, e': nat)
    requires a < 100 && b < 100 && c < 100 && d < 100 && e < 100
    requires a' < 100 && b' < 100 && c' < 100 && d' < 100 && e' < 100
    ensures |Clock(a, b, c, d, e)| == 18
    ensures Clock(a, b, c, d, e) == Clock(a', b', c', d', e') ==> a == a' && b == b' && c == c' && d == d' && e == e'
  {
    ClockParts(a, b, c, d, e);
    ClockParts(a', b', c', d', e');
    if Clock(a, b, c, d, e) == Clock(a', b', c', d', e') {
      PaddedInjective(a, a', 2);
      PaddedInjective(b, b', 2);
      PaddedInjective(c, c', 2);
      PaddedInjective(d, d', 2);
      PaddedInjective(e, e', 2);
    }
  }

  lemma ClockParts(a: nat, b: nat, c: nat, d: nat, e: nat)
    requires a < 100 && b < 100 && c < 100 && d < 100 && e < 100
    ensures var s := Clock(a, b, c, d, e);
            && |s| == 18
            && s[0..2] == Padded(a, 2) && s[3..5] == Padded(b, 2) && s[6..8] == Padded(c, 2)
            && s[9..11] == Padded(d, 2) && s[12..14] == Padded(e, 2)
  {
    TwoDigits(a);
    TwoDigits(b);
    TwoDigits(c);
    TwoDigits(d);
    TwoDigits(e);
  }

  lemma SamePrint(a: nat, b: nat, c: nat, d: nat, e: nat, f: nat, a': nat, b': nat, c': nat, d': nat, e': nat, f': nat)
    requires b < 100 && c < 100 && d < 100 && e < 100 && f < 100
    requires b' < 100 && c' < 100 && d' < 100 && e' < 100 && f' < 100
    requires Printed(a, b, c, d, e, f) == Printed(a', b', c', d', e', f')
    ensures a == a' && b == b' && c == c' && d == d' && e == e' && f == f'
  {
    hide Clock, Padded;
    SameClock(b, c, d, e, f, b', c', d', e', f');
    SameClock(b', c', d', e', f', b, c, d, e, f);
    TailsAgree(Padded(a, 4), Clock(b, c, d, e, f), Padded(a', 4), Clock(b', c', d', e', f'));
    PaddedInjective(a, a', 4);
  }

  lemma SecondOfDay(r: nat)
    requires r < 86400
    ensures r / 3600 < 24 && r % 3600 / 60 < 60 && r % 60 < 60
    ensures r == 3600 * (r / 3600) + 60 * (r % 3600 / 60) + r % 60
  {
    assert r == 3600 * (r / 3600) + r % 3600;
    assert r % 3600 % 60 == r % 60;
  }

  /** What is printed is the time on the date reached by walking. */
  lemma HumanTimeIsWalked(ts: nat)
    ensures HumanTime(ts) == WalkedTime(ts)
  {
    hide CivilFromDays, FromEra, TimeText, Walk;
    ClosedFormIsWalk(ts / 86400);
  }

  lemma SameText(x: Date, rem: nat, x': Date, rem': nat)
    requires Valid(x) && x.year >= 1970 && Valid(x') && x'.year >= 1970 && rem < 86400 && rem' < 86400
    requires TimeText(x, rem) == TimeText(x', rem')
    ensures x == x' && rem == rem'
  {
    hide Printed;
    SecondOfDay(rem);
    SecondOfDay(rem');
    SamePrint(x.year, x.month, x.day, rem / 3600, rem % 3600 / 60, rem % 60,
        x'.year, x'.month, x'.day, rem' / 3600, rem' % 3600 / 60, rem' % 60);
  }

  /** The time of day and date as they stand in the last 18 characters. */
  ghost predicate ReadsClock(s: string, month: nat, day: nat, hh: nat, mm: nat, ss: nat) {
    && |s| == 18
    && Value(s[0..2], 10) == month && s[2] == '-' && Value(s[3..5], 10) == day && s[5] == ' '
    && Value(s[6..8], 10) == hh && s[8] == ':' && Value(s[9..11], 10) == mm && s[11] == ':'
    && Value(s[12..14], 10) == ss && s[14..] == " UTC"
  }

  lemma ClockReads(month: nat, day: nat, hh: nat, mm: nat, ss: nat)
    requires month < 100 && day < 100 && hh < 100 && mm < 100 && ss < 100
    ensures ReadsClock(Clock(month, day, hh, mm, ss), month, day, hh, mm, ss)
  {
    hide Padded, Value;
    ClockParts(month, day, hh, mm, ss);
    PaddedReads(month, 2);
    PaddedReads(day, 2);
    PaddedReads(hh, 2);
    PaddedReads(mm, 2);
    PaddedReads(ss, 2);
    ClockMarks(month, day, hh, mm, ss);
  }

  lemma ClockMarks(month: nat, day: nat, hh: nat, mm: nat, ss: nat)
    requires month < 100 && day < 100 && hh < 100 && mm < 100 && ss < 100
    ensures var s := Clock(month, day, hh, mm, ss);
            |s| == 18 && s[2] == '-' && s[5] == ' ' && s[8] == ':' && s[11] == ':' && s[14..] == " UTC"
  {
    hide Padded;
    TwoDigits(month);
    TwoDigits(day);
    TwoDigits(hh);
    TwoDigits(mm);
    TwoDigits(ss);
  }

  /** Read back field by field, the printed time is year, month and day of the date reached
      by walking, then hour, minute and second of that day. */
  lemma PrintedFieldsRead(ts: nat) returns (hh: nat, mm: nat, ss: nat)
    ensures hh < 24 && mm < 60 && ss < 60 && 3600 * hh + 60 * mm + ss == ts % 86400
    ensures var s, x := HumanTime(ts), Walk(ts / 86400);
            && |s| >= 23
            && Value(s[..|s| - 19], 10) == x.year && s[|s| - 19] == '-'
            && ReadsClock(s[|s| - 18..], x.month, x.day, hh, mm, ss)
  {
    hide CivilFromDays, FromEra, Walk, Padded, Value, Clock, ReadsClock;
    HumanTimeIsWalked(ts);
    var x, rem := Walk(ts / 86400), ts % 86400;
    hh, mm, ss := rem / 3600, rem % 3600 / 60, rem % 60;
    SecondOfDay(rem);
    ClockReads(x.month, x.day, hh, mm, ss);
    PaddedReads(x.year, 4);
    PrintedParts(Padded(x.year, 4), Clock(x.month, x.day, hh, mm, ss));
    assert |Clock(x.month, x.day, hh, mm, ss)| == 18 by { ClockParts(x.month, x.day, hh, mm, ss); }
  }

  lemma PrintedParts(year: string, clock: string)
    ensures var s := year + "-" + clock;
            && |s| == |year| + 1 + |clock| && s[..|year|] == year && s[|year|] == '-' && s[|year| + 1..] == clock
  {
  }

  /** Walking never comes back to a date. */
  lemma WalkInjective(m: nat, n: nat)
    requires Walk(m) == Walk(n)
    ensures m == n
  {
    hide Walk, DayNumber;
    WalkCounts(m);
    WalkCounts(n);
  }

  lemma WalkCounts(n: nat)
    ensures Counts(Walk(n), n)
  {
    hide Walk, CivilFromDays, FromEra, Counts;
    CivilCounts(n);
    ClosedFormIsWalk(n);
  }

  /** The printed time loses nothing: two times print alike only if they are the same second. */
  lemma PrintedTimeInjective(s: nat, t: nat)
    ensures WalkedTime(s) == WalkedTime(t) <==> s == t
  {
    hide Walk, TimeText;
    if WalkedTime(s) == WalkedTime(t) {
      SameText(Walk(s / 86400), s % 86400, Walk(t / 86400), t % 86400);
      WalkInjective(s / 86400, t / 86400);
      assert s == 86400 * (s / 86400) + s % 86400 && t == 86400 * (t / 86400) + t % 86400;
    }
  }

  lemma TailsAgree(a: string, c: string, b: string, d: string)
    requires a + "-" + c == b + "-" + d && |c| == |d|
    ensures a == b && c == d
  {
    assert |a| == |b|;
    assert (a + "-" + c)[..|a|] == a && (b + "-" + d)[..|b|] == b;
    assert (a + "-" + c)[|a| + 1..] == c && (b + "-" + d)[|b| + 1..] == d;
  }
}
