/** Civil dates as day numbers: the conversions behind every timestamp the store writes,
    against the Gregorian calendar counted out one year and one month at a time. */
module Calendar {

  datatype Date = Date(year: int, month: int, day: int)

  // ---- The Gregorian calendar, by its own rules ----

  predicate IsLeap(year: int) {
    year % 4 == 0 && (year % 100 != 0 || year % 400 == 0)
  }

  function DaysInMonth(year: int, month: int): int
    requires 1 <= month <= 12
  {
    if month == 2 then if IsLeap(year) then 29 else 28
    else if month == 4 || month == 6 || month == 9 || month == 11 then 30 else 31
  }

  function DaysInYear(year: int): int {
    if IsLeap(year) then 366 else 365
  }

  predicate Valid(d: Date) {
    1 <= d.month <= 12 && 1 <= d.day <= DaysInMonth(d.year, d.month)
  }

  /** Days from 1970-01-01 to January 1st of `year`, one year at a time in either direction. */
  function DaysBeforeYear(year: int): int
    decreases if year >= 1970 then year - 1970 else 1970 - year
  {
    if year == 1970 then 0
    else if year > 1970 then DaysBeforeYear(year - 1) + DaysInYear(year - 1)
    else DaysBeforeYear(year + 1) - DaysInYear(year)
  }

  /** Days from January 1st to the first day of `month`, one month at a time. */
  function DaysBeforeMonth(year: int, month: int): int
    requires 1 <= month <= 12
  {
    if month == 1 then 0 else DaysBeforeMonth(year, month - 1) + DaysInMonth(year, month - 1)
  }

  function DayCount(d: Date): int
    requires Valid(d)
  {
    DaysBeforeYear(d.year) + DaysBeforeMonth(d.year, d.month) + d.day - 1
  }

  // ---- The conversions as the program computes them ----

  function DaysFromCivil(year: int, month: int, day: int): int {
    var y := if month <= 2 then year - 1 else year;
    var era := y / 400;
    var yearOfEra := y % 400;
    var dayOfYear := (153 * ((month + 9) % 12) + 2) / 5 + day - 1;
    var dayOfEra := yearOfEra * 365 + yearOfEra / 4 - yearOfEra / 100 + dayOfYear;
    era * 146_097 + dayOfEra - 719_468
  }

  function CivilFromDays(days: int): Date {
    var shifted := days + 719_468;
    var era := shifted / 146_097;
    var dayOfEra := shifted % 146_097;
    var yearOfEra := YearOfEra(dayOfEra);
    var dayOfYear := dayOfEra - (365 * yearOfEra + yearOfEra / 4 - yearOfEra / 100);
    var monthIndex := (5 * dayOfYear + 2) / 153;
    var day := dayOfYear - (153 * monthIndex + 2) / 5 + 1;
    var month := if monthIndex < 10 then monthIndex + 3 else monthIndex - 9;
    var year := yearOfEra + era * 400 + (if month <= 2 then 1 else 0);
    Date(year, month, day)
  }

  function YearOfEra(dayOfEra: int): int {
    (dayOfEra - dayOfEra / 1460 + dayOfEra / 36_524 - dayOfEra / 146_096) / 365
  }

  // ---- Closed forms ----

  /** Days before March 1st of year `y` of an era (years start in March, so the leap day is last). */
  function EraYearStart(y: int): int {
    365 * y + y / 4 - y / 100
  }

  /** The days in year `y` of an era (March to February): 366 when February of `y + 1` is leap. */
  function EraYearLength(y: int): int {
    if y % 4 == 3 && (y % 100 != 99 || y == 399) then 366 else 365
  }

  lemma EraYearStartSplit(c: int, q: int, r: int)
    requires 0 <= c < 4 && 0 <= q < 25 && 0 <= r < 4
    ensures EraYearStart(100 * c + 4 * q + r) == 36_524 * c + 1461 * q + 365 * r
  {
    var y := 100 * c + 4 * q + r;
    assert y / 4 == 25 * c + q;
    assert y / 100 == c;
  }

  lemma YearOfEraSplit(c: int, q: int, r: int, dayOfYear: int)
    requires 0 <= c < 4 && 0 <= q < 25 && 0 <= r < 4
    requires 0 <= dayOfYear < 365 || (dayOfYear == 365 && r == 3 && (q != 24 || c == 3))
    ensures var d := 36_524 * c + 1461 * q + 365 * r + dayOfYear;
      0 <= d < 146_097 && YearOfEra(d) == 100 * c + 4 * q + r
  {
    var d := 36_524 * c + 1461 * q + 365 * r + dayOfYear;
    var carry := if 24 * c + q + 365 * r + dayOfYear >= 1460 then 1 else 0;
    var last := if d == 146_096 then 1 else 0;
    assert d / 1460 == 25 * c + q + carry;
    assert d / 36_524 == c + last;
    assert d / 146_096 == last;
  }

  lemma YearOfEraCorrect(y: int, dayOfYear: int)
    requires 0 <= y < 400
    requires 0 <= dayOfYear < EraYearLength(y)
    ensures 0 <= EraYearStart(y) + dayOfYear < 146_097
    ensures YearOfEra(EraYearStart(y) + dayOfYear) == y
  {
    var c, q, r := y / 100, y % 100 / 4, y % 4;
    assert y == 100 * c + 4 * q + r;
    EraYearStartSplit(c, q, r);
    YearOfEraSplit(c, q, r, dayOfYear);
  }

  /** Every day of an era lies in exactly the year `YearOfEra` names. */
  lemma YearOfEraTotal(dayOfEra: int)
    requires 0 <= dayOfEra < 146_097
    ensures var y := YearOfEra(dayOfEra);
      0 <= y < 400 && 0 <= dayOfEra - EraYearStart(y) < EraYearLength(y)
  {
    var c, q, r, rest := SplitOfDay(dayOfEra);
    EraYearStartSplit(c, q, r);
    EraYearLengthSplit(c, q, r);
    YearOfEraSplit(c, q, r, rest);
  }

  /** A day of an era by its century, its four years, its year and its day. */
  lemma SplitOfDay(dayOfEra: int) returns (c: int, q: int, r: int, rest: int)
    requires 0 <= dayOfEra < 146_097
    ensures 0 <= c < 4 && 0 <= q < 25 && 0 <= r < 4
    ensures 0 <= rest < 365 || (rest == 365 && SplitLeap(c, q, r))
    ensures dayOfEra == 36_524 * c + 1461 * q + 365 * r + rest
  {
    c := if dayOfEra == 146_096 then 3 else dayOfEra / 36_524;
    var inCentury := dayOfEra - 36_524 * c;
    assert 0 <= inCentury < 36_524 || (inCentury == 36_524 && c == 3);
    q := inCentury / 1461;
    var inQuad := inCentury % 1461;
    assert 0 <= q < 25 && inCentury == 1461 * q + inQuad;
    r := if inQuad == 1460 then 3 else inQuad / 365;
    rest := inQuad - 365 * r;
  }

  /** March 1st of `year` as a day number, before the shift of the epoch. */
  function MarchFirst(year: int): int {
    year / 400 * 146_097 + EraYearStart(year % 400)
  }

  predicate SplitLeap(c: int, q: int, r: int) {
    r == 3 && (q != 24 || c == 3)
  }

  lemma EraYearLengthSplit(c: int, q: int, r: int)
    requires 0 <= c < 4 && 0 <= q < 25 && 0 <= r < 4
    ensures EraYearLength(100 * c + 4 * q + r) == if SplitLeap(c, q, r) then 366 else 365
  {
    var y := 100 * c + 4 * q + r;
    assert y % 4 == r;
    assert y % 100 == 4 * q + r;
  }

  lemma RemainderOfSum(k: int, m: int, r: int)
    requires m in {4, 100, 400} && 0 <= r < m
    ensures (m * k + r) % m == r
  {
  }

  lemma LeapSplit(era: int, c: int, q: int, r: int)
    requires 0 <= c < 4 && 0 <= q < 25 && 0 <= r < 4
    ensures IsLeap(400 * era + 100 * c + 4 * q + r + 1) == SplitLeap(c, q, r)
  {
    var year := 400 * era + 100 * c + 4 * q + r + 1;
    if r < 3 {
      RemainderOfSum(100 * era + 25 * c + q, 4, r + 1);
    } else {
      RemainderOfSum(100 * era + 25 * c + q + 1, 4, 0);
      if q < 24 {
        RemainderOfSum(4 * era + c, 100, 4 * q + 4);
      } else {
        RemainderOfSum(4 * era + c + 1, 100, 0);
        RemainderOfSum(if c == 3 then era + 1 else era, 400, if c == 3 then 0 else 100 * c + 100);
      }
    }
  }

  lemma EraYearLengthIsLeap(year: int)
    ensures EraYearLength(year % 400) == DaysInYear(year + 1)
  {
    var era, y := year / 400, year % 400;
    var c, q, r := y / 100, y % 100 / 4, y % 4;
    assert y == 100 * c + 4 * q + r;
    EraYearLengthSplit(c, q, r);
    LeapSplit(era, c, q, r);
  }

  lemma MarchFirstStep(year: int)
    ensures MarchFirst(year + 1) == MarchFirst(year) + DaysInYear(year + 1)
  {
    EraYearLengthIsLeap(year);
    var y := year % 400;
    if y == 399 {
      assert (year + 1) / 400 == year / 400 + 1 && (year + 1) % 400 == 0;
    } else {
      assert (year + 1) / 400 == year / 400 && (year + 1) % 400 == y + 1;
      EraYearStep(y);
    }
  }

  lemma EraYearStep(y: int)
    requires 0 <= y < 399
    ensures EraYearStart(y + 1) == EraYearStart(y) + EraYearLength(y)
  {
    var c, q, r := y / 100, y % 100 / 4, y % 4;
    assert y == 100 * c + 4 * q + r;
    EraYearStartSplit(c, q, r);
    if r < 3 {
      EraYearStartSplit(c, q, r + 1);
    } else if q < 24 {
      EraYearStartSplit(c, q + 1, 0);
    } else {
      EraYearStartSplit(c + 1, 0, 0);
    }
  }

  // ---- Months counted from March ----

  function MonthIndex(month: int): int {
    (month + 9) % 12
  }

  function MonthStart(index: int): int {
    (153 * index + 2) / 5
  }

  /** The year, counted from March, that `d` belongs to. */
  function MarchYear(d: Date): int {
    if d.month <= 2 then d.year - 1 else d.year
  }

  function DayOfMarchYear(d: Date): int {
    MonthStart(MonthIndex(d.month)) + d.day - 1
  }

  lemma MonthOfDay(d: Date)
    requires Valid(d)
    ensures 0 <= DayOfMarchYear(d) < EraYearLength(MarchYear(d) % 400)
    ensures (5 * DayOfMarchYear(d) + 2) / 153 == MonthIndex(d.month)
  {
    EraYearLengthIsLeap(MarchYear(d));
  }

  /** The date `dayOfYear` days after March 1st of `year`. */
  function MarchDate(year: int, dayOfYear: int): Date {
    var index := (5 * dayOfYear + 2) / 153;
    var month := if index < 10 then index + 3 else index - 9;
    Date(if month <= 2 then year + 1 else year, month, dayOfYear - MonthStart(index) + 1)
  }

  lemma MarchDateValid(year: int, dayOfYear: int)
    requires 0 <= dayOfYear < EraYearLength(year % 400)
    ensures var d := MarchDate(year, dayOfYear);
      Valid(d) && MarchYear(d) == year && DayOfMarchYear(d) == dayOfYear
  {
    EraYearLengthIsLeap(year);
    var index := (5 * dayOfYear + 2) / 153;
    assert 0 <= index < 12;
  }

  lemma MarchDateOf(d: Date)
    requires Valid(d)
    ensures 0 <= DayOfMarchYear(d) < EraYearLength(MarchYear(d) % 400)
    ensures MarchDate(MarchYear(d), DayOfMarchYear(d)) == d
  {
    MonthOfDay(d);
  }

  lemma CivilIsMarchDate(days: int, year: int, dayOfYear: int)
    requires 0 <= dayOfYear < EraYearLength(year % 400)
    requires days == MarchFirst(year) + dayOfYear - 719_468
    ensures CivilFromDays(days) == MarchDate(year, dayOfYear)
  {
    var era, y := year / 400, year % 400;
    YearOfEraCorrect(y, dayOfYear);
    var dayOfEra := EraYearStart(y) + dayOfYear;
    SplitDays(days, era, dayOfEra);
    assert YearOfEra(dayOfEra) == y && dayOfEra - EraYearStart(y) == dayOfYear;
    assert year == era * 400 + y;
  }

  lemma SplitDays(days: int, era: int, dayOfEra: int)
    requires days + 719_468 == era * 146_097 + dayOfEra && 0 <= dayOfEra < 146_097
    ensures (days + 719_468) / 146_097 == era && (days + 719_468) % 146_097 == dayOfEra
  {
  }

  lemma DaysFromCivilClosed(d: Date)
    requires Valid(d)
    ensures DaysFromCivil(d.year, d.month, d.day) == MarchFirst(MarchYear(d)) + DayOfMarchYear(d) - 719_468
  {
  }

  // ---- The conversions are inverses, over every day and every date ----

  lemma CivilOfDaysOfCivil(d: Date)
    requires Valid(d)
    ensures CivilFromDays(DaysFromCivil(d.year, d.month, d.day)) == d
  {
    MarchDateOf(d);
    DaysFromCivilClosed(d);
    CivilIsMarchDate(DaysFromCivil(d.year, d.month, d.day), MarchYear(d), DayOfMarchYear(d));
  }

  lemma DaysOfCivilOfDays(days: int)
    ensures var d := CivilFromDays(days); Valid(d) && DaysFromCivil(d.year, d.month, d.day) == days
  {
    var shifted := days + 719_468;
    var era, dayOfEra := shifted / 146_097, shifted % 146_097;
    YearOfEraTotal(dayOfEra);
    var y := YearOfEra(dayOfEra);
    var year, dayOfYear := 400 * era + y, dayOfEra - EraYearStart(y);
    assert year / 400 == era && year % 400 == y;
    CivilIsMarchDate(days, year, dayOfYear);
    MarchDateValid(year, dayOfYear);
    DaysFromCivilClosed(MarchDate(year, dayOfYear));
  }

  // ---- The conversion counts the calendar's own days ----

  lemma {:induction false} YearsCounted(year: int)
    ensures MarchFirst(year - 1) + 306 - 719_468 == DaysBeforeYear(year)
    decreases if year >= 1970 then year - 1970 else 1970 - year
  {
    if year > 1970 {
      YearsCounted(year - 1);
      MarchFirstStep(year - 2);
    } else if year < 1970 {
      YearsCounted(year + 1);
      MarchFirstStep(year - 1);
    }
  }

  lemma {:induction false} MonthsCounted(year: int, month: int)
    requires 1 <= month <= 12
    ensures DaysBeforeMonth(year, month) ==
      if month <= 2 then MonthStart(MonthIndex(month)) - 306
      else MonthStart(MonthIndex(month)) + 59 + (if IsLeap(year) then 1 else 0)
  {
    if month > 1 {
      MonthsCounted(year, month - 1);
    }
  }

  lemma DaysFromCivilCounts(d: Date)
    requires Valid(d)
    ensures DaysFromCivil(d.year, d.month, d.day) == DayCount(d)
  {
    DaysFromCivilClosed(d);
    YearsCounted(d.year);
    MonthsCounted(d.year, d.month);
    MarchFirstStep(d.year - 1);
  }

  // ---- Day numbers order dates ----

  predicate Before(a: Date, b: Date) {
    a.year < b.year || (a.year == b.year && (a.month < b.month || (a.month == b.month && a.day < b.day)))
  }

  lemma {:induction false} YearsIncrease(a: int, b: int)
    requires a < b
    ensures DaysBeforeYear(a) + DaysInYear(a) <= DaysBeforeYear(b)
    decreases b - a
  {
    if a + 1 < b {
      YearsIncrease(a + 1, b);
    }
  }

  lemma {:induction false} MonthsIncrease(year: int, a: int, b: int)
    requires 1 <= a < b <= 12
    ensures DaysBeforeMonth(year, a) + DaysInMonth(year, a) <= DaysBeforeMonth(year, b)
    decreases b - a
  {
    if a + 1 < b {
      MonthsIncrease(year, a + 1, b);
    }
  }

  lemma DayWithinYear(d: Date)
    requires Valid(d)
    ensures DaysBeforeYear(d.year) <= DayCount(d) < DaysBeforeYear(d.year) + DaysInYear(d.year)
  {
    MonthsCounted(d.year, d.month);
  }

  lemma DayCountIncreases(a: Date, b: Date)
    requires Valid(a) && Valid(b)
    requires Before(a, b)
    ensures DayCount(a) < DayCount(b)
  {
    if a.year < b.year {
      DayWithinYear(a);
      DayWithinYear(b);
      YearsIncrease(a.year, b.year);
    } else if a.month < b.month {
      MonthsIncrease(a.year, a.month, b.month);
    }
  }

  lemma DaysOrderDates(a: Date, b: Date)
    requires Valid(a) && Valid(b)
    ensures Before(a, b) <==> DaysFromCivil(a.year, a.month, a.day) < DaysFromCivil(b.year, b.month, b.day)
  {
    DaysFromCivilCounts(a);
    DaysFromCivilCounts(b);
    if Before(a, b) {
      DayCountIncreases(a, b);
    } else if a != b {
      DayCountIncreases(b, a);
    }
  }
}
