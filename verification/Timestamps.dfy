/** Canonical timestamps: `YYYY-MM-DDTHH:MM:SS.mmmZ` as bytes, against instants in milliseconds. */
module Timestamps {
  import opened Calendar
  import opened Common

  const MILLIS_PER_DAY: int := 86_400_000
  /** 9999-12-31T23:59:59.999Z. */
  const MAX_MILLIS: int := 253_402_300_799_999

  type Byte = b: int | 0 <= b < 256
  type Bytes = seq<Byte>
  type Instant = t: int | 0 <= t <= MAX_MILLIS

  const DASH: Byte := 45
  const COLON: Byte := 58
  const DOT: Byte := 46
  const ZERO: Byte := 48
  const LETTER_T: Byte := 84
  const LETTER_Z: Byte := 90

  // ---- Decimal numbers ----

  predicate IsDigit(b: Byte) { ZERO <= b <= ZERO + 9 }

  predicate AllDigits(text: Bytes) { forall b | b in text :: IsDigit(b) }

  /** `n` in decimal, without leading zeros. */
  function Decimal(n: nat): Bytes {
    if n < 10 then [ZERO + n] else Decimal(n / 10) + [ZERO + n % 10]
  }

  function Zeros(count: nat): Bytes {
    if count == 0 then [] else [ZERO] + Zeros(count - 1)
  }

  /** `n` in decimal, padded with zeros to at least `width` digits. */
  function Padded(n: nat, width: nat): Bytes {
    var digits := Decimal(n);
    if |digits| < width then Zeros(width - |digits|) + digits else digits
  }

  function Number(digits: Bytes): (n: nat)
    requires AllDigits(digits)
  {
    if digits == [] then 0
    else
      var last := digits[|digits| - 1];
      assert IsDigit(last);
      10 * Number(digits[..|digits| - 1]) + (last - ZERO)
  }

  // ---- The program's parser and printer ----

  function Print(t: Instant): Bytes {
    var days, inDay := t / MILLIS_PER_DAY, t % MILLIS_PER_DAY;
    var date := CivilFromDays(days);
    var (hour, minute) := (inDay / 3_600_000, inDay / 60_000 % 60);
    var (second, millis) := (inDay / 1000 % 60, inDay % 1000);
    CivilOfInstant(t);
    Padded(date.year, 4) + ([DASH] + (Padded(date.month, 2) + ([DASH] + (Padded(date.day, 2) + ([LETTER_T] +
    (Padded(hour, 2) + ([COLON] + (Padded(minute, 2) + ([COLON] + (Padded(second, 2) + ([DOT] +
    (Padded(millis, 3) + [LETTER_Z]))))))))))))
  }

  predicate Separated(text: Bytes)
    requires |text| == 24
  {
    text[4] == DASH && text[7] == DASH && text[10] == LETTER_T && text[13] == COLON
    && text[16] == COLON && text[19] == DOT && text[23] == LETTER_Z
  }

  function Parse(text: Bytes): (r: Option<Instant>)
    ensures r.Some? ==> Print(r.value) == text
  {
    if |text| != 24 || !Separated(text) then None
    else if !(AllDigits(text[0..4]) && AllDigits(text[5..7]) && AllDigits(text[8..10])) then None
    else if !(AllDigits(text[11..13]) && AllDigits(text[14..16]) && AllDigits(text[17..19])) then None
    else if !AllDigits(text[20..23]) then None
    else
      FromNumbers(text, Number(text[0..4]), Number(text[5..7]), Number(text[8..10]), Number(text[11..13]),
                  Number(text[14..16]), Number(text[17..19]), Number(text[20..23]))
  }

  function FromNumbers(text: Bytes, year: nat, month: nat, day: nat, hour: nat, minute: nat, second: nat, millis: nat)
    : (r: Option<Instant>)
    ensures r.Some? ==> Print(r.value) == text
  {
    if !(1 <= month <= 12) || !(1 <= day <= 31) || hour > 23 || minute > 59 then None
    else if second > 59 then None
    else FromDays(text, DaysFromCivil(year, month, day), hour, minute, second, millis)
  }

  function FromDays(text: Bytes, days: int, hour: nat, minute: nat, second: nat, millis: nat): (r: Option<Instant>)
    ensures r.Some? ==> Print(r.value) == text
  {
    var total := days * MILLIS_PER_DAY + ((hour * 60 + minute) * 60 + second) * 1000 + millis;
    if !(0 <= total <= MAX_MILLIS) then None
    // Day overflow (February 30th, say) survives the range checks but not the round trip.
    else if Print(total) == text then Some(total) else None
  }

  // ---- What the text means ----

  datatype Fields = Fields(date: Date, hour: int, minute: int, second: int, millis: int)

  /** A real date and time between 1970 and 9999. */
  predicate Real(f: Fields) {
    Valid(f.date) && 1970 <= f.date.year <= 9999
    && 0 <= f.hour < 24 && 0 <= f.minute < 60 && 0 <= f.second < 60 && 0 <= f.millis < 1000
  }

  /** Milliseconds since the epoch, counting days by the calendar's own rules. */
  function Millis(f: Fields): int
    requires Real(f)
  {
    DayCount(f.date) * MILLIS_PER_DAY + ((f.hour * 60 + f.minute) * 60 + f.second) * 1000 + f.millis
  }

  /** The last `width` decimal digits of `n`. */
  function Fixed(n: nat, width: nat): (text: Bytes)
    ensures |text| == width
  {
    if width == 0 then [] else Fixed(n / 10, width - 1) + [ZERO + n % 10]
  }

  /** The one canonical text of a real date and time: fixed widths, fixed separators. */
  function Canonical(f: Fields): Bytes
    requires Real(f)
  {
    Fixed(f.date.year, 4) + ([DASH] + (Fixed(f.date.month, 2) + ([DASH] + (Fixed(f.date.day, 2) + ([LETTER_T] +
    (Fixed(f.hour, 2) + ([COLON] + (Fixed(f.minute, 2) + ([COLON] + (Fixed(f.second, 2) + ([DOT] +
    (Fixed(f.millis, 3) + [LETTER_Z]))))))))))))
  }

  function FieldsOf(t: Instant): Fields {
    var inDay := t % MILLIS_PER_DAY;
    Fields(CivilFromDays(t / MILLIS_PER_DAY), inDay / 3_600_000, inDay / 60_000 % 60, inDay / 1000 % 60, inDay % 1000)
  }

  lemma DayRange(d: Date)
    requires Valid(d)
    ensures 0 <= DayCount(d) <= 2_932_896 <==> 1970 <= d.year <= 9999
  {
    var first, last := Date(1970, 1, 1), Date(9999, 12, 31);
    assert Valid(first) && Valid(last);
    assert DaysFromCivil(1970, 1, 1) == 0 && DaysFromCivil(9999, 12, 31) == 2_932_896;
    DaysOrderDates(d, first);
    DaysOrderDates(last, d);
    DaysFromCivilCounts(d);
  }

  lemma CivilOfInstant(t: Instant)
    ensures var d := CivilFromDays(t / MILLIS_PER_DAY);
      Valid(d) && 1970 <= d.year <= 9999 && DayCount(d) == t / MILLIS_PER_DAY
  {
    var days := t / MILLIS_PER_DAY;
    assert 0 <= days <= 2_932_896;
    DaysOfCivilOfDays(days);
    var d := CivilFromDays(days);
    DaysFromCivilCounts(d);
    DayRange(d);
  }

  lemma TimeOfDay(inDay: int)
    requires 0 <= inDay < MILLIS_PER_DAY
    ensures var (h, m, s, ms) := (inDay / 3_600_000, inDay / 60_000 % 60, inDay / 1000 % 60, inDay % 1000);
      0 <= h < 24 && 0 <= m < 60 && 0 <= s < 60 && 0 <= ms < 1000
      && ((h * 60 + m) * 60 + s) * 1000 + ms == inDay
  {
    var seconds := inDay / 1000;
    assert inDay / 60_000 == seconds / 60;
    assert inDay / 3_600_000 == seconds / 60 / 60;
  }

  lemma FieldsOfReal(t: Instant)
    ensures Real(FieldsOf(t)) && Millis(FieldsOf(t)) == t
  {
    CivilOfInstant(t);
    TimeOfDay(t % MILLIS_PER_DAY);
  }

  lemma FieldsOfTime(h: int, m: int, s: int, ms: int)
    requires 0 <= h < 24 && 0 <= m < 60 && 0 <= s < 60 && 0 <= ms < 1000
    ensures var inDay := ((h * 60 + m) * 60 + s) * 1000 + ms;
      0 <= inDay < MILLIS_PER_DAY
      && (inDay / 3_600_000, inDay / 60_000 % 60, inDay / 1000 % 60, inDay % 1000) == (h, m, s, ms)
  {
    var inDay := ((h * 60 + m) * 60 + s) * 1000 + ms;
    assert inDay / 1000 == (h * 60 + m) * 60 + s;
    assert inDay / 60_000 == h * 60 + m;
    assert inDay / 3_600_000 == h;
  }

  lemma SplitDay(days: int, inDay: int)
    requires 0 <= inDay < MILLIS_PER_DAY
    ensures (days * MILLIS_PER_DAY + inDay) / MILLIS_PER_DAY == days
    ensures (days * MILLIS_PER_DAY + inDay) % MILLIS_PER_DAY == inDay
  {
  }

  function TimeOf(f: Fields): int { ((f.hour * 60 + f.minute) * 60 + f.second) * 1000 + f.millis }

  lemma MillisParts(f: Fields)
    requires Real(f)
    ensures 0 <= TimeOf(f) < MILLIS_PER_DAY
    ensures Millis(f) / MILLIS_PER_DAY == DayCount(f.date) && Millis(f) % MILLIS_PER_DAY == TimeOf(f)
  {
    FieldsOfTime(f.hour, f.minute, f.second, f.millis);
    SplitDay(DayCount(f.date), TimeOf(f));
  }

  lemma MillisInRange(f: Fields)
    requires Real(f)
    ensures 0 <= Millis(f) <= MAX_MILLIS
  {
    DayRange(f.date);
    FieldsOfTime(f.hour, f.minute, f.second, f.millis);
  }

  lemma CivilOfDate(d: Date)
    requires Valid(d)
    ensures CivilFromDays(DayCount(d)) == d
  {
    DaysFromCivilCounts(d);
    CivilOfDaysOfCivil(d);
  }

  lemma FieldsOfMillis(f: Fields)
    requires Real(f)
    ensures 0 <= Millis(f) <= MAX_MILLIS && FieldsOf(Millis(f)) == f
  {
    MillisInRange(f);
    MillisParts(f);
    FieldsOfTime(f.hour, f.minute, f.second, f.millis);
    CivilOfDate(f.date);
  }

  // ---- Fixed-width digits ----

  function Power10(n: nat): (p: nat)
    ensures p > 0
  {
    if n == 0 then 1 else 10 * Power10(n - 1)
  }

  lemma {:induction false} FixedZero(width: nat)
    ensures Fixed(0, width) == Zeros(width)
  {
    if width > 0 {
      FixedZero(width - 1);
      ZerosAppend(width - 1);
    }
  }

  lemma {:induction false} ZerosAppend(count: nat)
    ensures Zeros(count + 1) == Zeros(count) + [ZERO]
  {
    if count > 0 {
      ZerosAppend(count - 1);
      assert [ZERO] + (Zeros(count - 1) + [ZERO]) == ([ZERO] + Zeros(count - 1)) + [ZERO];
    }
  }

  /** Padding a number that fits its width gives exactly the fixed-width digits. */
  lemma {:induction false} PaddedIsFixed(n: nat, width: nat)
    requires width > 0 && n < Power10(width)
    ensures |Decimal(n)| <= width && Padded(n, width) == Fixed(n, width)
  {
    if n < 10 {
      FixedZero(width - 1);
      assert n / 10 == 0;
    } else {
      assert width > 1 by { assert Power10(1) == 10; }
      assert n / 10 < Power10(width - 1);
      PaddedIsFixed(n / 10, width - 1);
      assert Zeros(width - |Decimal(n)|) + (Decimal(n / 10) + [ZERO + n % 10])
          == (Zeros(width - |Decimal(n)|) + Decimal(n / 10)) + [ZERO + n % 10];
    }
  }

  lemma {:induction false} NumberOfFixed(n: nat, width: nat)
    requires n < Power10(width)
    ensures AllDigits(Fixed(n, width)) && Number(Fixed(n, width)) == n
  {
    if width > 0 {
      NumberOfFixed(n / 10, width - 1);
      var text := Fixed(n, width);
      assert text[..width - 1] == Fixed(n / 10, width - 1);
      assert text[width - 1] == ZERO + n % 10;
    }
  }

  // ---- Text order ----

  /** Byte-wise text order, as the store sorts text columns. */
  predicate TextLess(a: Bytes, b: Bytes) {
    if b == [] then false
    else if a == [] then true
    else a[0] < b[0] || (a[0] == b[0] && TextLess(a[1..], b[1..]))
  }

  lemma {:induction false} TextLessConcat(p: Bytes, q: Bytes, a: Bytes, b: Bytes)
    requires |p| == |q|
    ensures TextLess(p + a, q + b) <==> TextLess(p, q) || (p == q && TextLess(a, b))
  {
    if p == [] {
      assert p + a == a && q + b == b;
    } else {
      TextLessConcat(p[1..], q[1..], a, b);
      assert (p + a)[1..] == p[1..] + a && (q + b)[1..] == q[1..] + b;
      assert p == [p[0]] + p[1..] && q == [q[0]] + q[1..];
    }
  }

  lemma {:induction false} FixedOrder(m: nat, n: nat, width: nat)
    requires m < Power10(width) && n < Power10(width)
    ensures TextLess(Fixed(m, width), Fixed(n, width)) <==> m < n
    ensures Fixed(m, width) == Fixed(n, width) ==> m == n
  {
    NumberOfFixed(m, width);
    NumberOfFixed(n, width);
    if width > 0 {
      FixedOrder(m / 10, n / 10, width - 1);
      TextLessConcat(Fixed(m / 10, width - 1), Fixed(n / 10, width - 1), [ZERO + m % 10], [ZERO + n % 10]);
    }
  }

  lemma FieldOrder(m: nat, n: nat, width: nat, mark: Byte, a: Bytes, b: Bytes)
    requires m < Power10(width) && n < Power10(width)
    ensures TextLess(Fixed(m, width) + ([mark] + a), Fixed(n, width) + ([mark] + b))
      <==> m < n || (m == n && TextLess(a, b))
  {
    FixedOrder(m, n, width);
    TextLessConcat(Fixed(m, width), Fixed(n, width), [mark] + a, [mark] + b);
    assert ([mark] + a)[1..] == a && ([mark] + b)[1..] == b;
  }

  predicate Earlier(f: Fields, g: Fields) {
    Before(f.date, g.date) || (f.date == g.date && (f.hour < g.hour || (f.hour == g.hour && (f.minute < g.minute
    || (f.minute == g.minute && (f.second < g.second || (f.second == g.second && f.millis < g.millis)))))))
  }

  lemma Powers()
    ensures Power10(2) == 100 && Power10(3) == 1000 && Power10(4) == 10_000
  {
    assert Power10(1) == 10;
  }

  lemma CanonicalOrder(f: Fields, g: Fields)
    requires Real(f) && Real(g)
    ensures TextLess(Canonical(f), Canonical(g)) <==> Earlier(f, g)
  {
    Powers();
    var (f7, g7) := (Fixed(f.millis, 3) + ([LETTER_Z] + []), Fixed(g.millis, 3) + ([LETTER_Z] + []));
    assert Fixed(f.millis, 3) + [LETTER_Z] == f7 && Fixed(g.millis, 3) + [LETTER_Z] == g7;
    FieldOrder(f.millis, g.millis, 3, LETTER_Z, [], []);
    var (f6, g6) := (Fixed(f.second, 2) + ([DOT] + f7), Fixed(g.second, 2) + ([DOT] + g7));
    FieldOrder(f.second, g.second, 2, DOT, f7, g7);
    var (f5, g5) := (Fixed(f.minute, 2) + ([COLON] + f6), Fixed(g.minute, 2) + ([COLON] + g6));
    FieldOrder(f.minute, g.minute, 2, COLON, f6, g6);
    var (f4, g4) := (Fixed(f.hour, 2) + ([COLON] + f5), Fixed(g.hour, 2) + ([COLON] + g5));
    FieldOrder(f.hour, g.hour, 2, COLON, f5, g5);
    var (f3, g3) := (Fixed(f.date.day, 2) + ([LETTER_T] + f4), Fixed(g.date.day, 2) + ([LETTER_T] + g4));
    FieldOrder(f.date.day, g.date.day, 2, LETTER_T, f4, g4);
    var (f2, g2) := (Fixed(f.date.month, 2) + ([DASH] + f3), Fixed(g.date.month, 2) + ([DASH] + g3));
    FieldOrder(f.date.month, g.date.month, 2, DASH, f3, g3);
    FieldOrder(f.date.year, g.date.year, 4, DASH, f2, g2);
  }

  lemma EarlierMillis(f: Fields, g: Fields)
    requires Real(f) && Real(g)
    ensures Earlier(f, g) <==> Millis(f) < Millis(g)
  {
    FieldsOfTime(f.hour, f.minute, f.second, f.millis);
    FieldsOfTime(g.hour, g.minute, g.second, g.millis);
    DaysFromCivilCounts(f.date);
    DaysFromCivilCounts(g.date);
    DaysOrderDates(f.date, g.date);
    DaysOrderDates(g.date, f.date);
  }

  // ---- Main results ----

  lemma PrintIsCanonical(t: Instant)
    ensures Real(FieldsOf(t)) && Print(t) == Canonical(FieldsOf(t)) && |Print(t)| == 24
  {
    FieldsOfReal(t);
    Powers();
    var f := FieldsOf(t);
    PaddedIsFixed(f.date.year, 4);
    PaddedIsFixed(f.date.month, 2);
    PaddedIsFixed(f.date.day, 2);
    PaddedIsFixed(f.hour, 2);
    PaddedIsFixed(f.minute, 2);
    PaddedIsFixed(f.second, 2);
    PaddedIsFixed(f.millis, 3);
  }

  /** Printed, an earlier instant is the smaller text, and the other way round. */
  lemma TextOrderIsInstantOrder(a: Instant, b: Instant)
    ensures TextLess(Print(a), Print(b)) <==> a < b
  {
    PrintIsCanonical(a);
    PrintIsCanonical(b);
    FieldsOfReal(a);
    FieldsOfReal(b);
    CanonicalOrder(FieldsOf(a), FieldsOf(b));
    EarlierMillis(FieldsOf(a), FieldsOf(b));
  }

  lemma FieldAt(text: Bytes, at: nat, n: nat, width: nat, mark: Byte, rest: Bytes)
    requires at <= |text| && text[at..] == Fixed(n, width) + ([mark] + rest)
    requires n < Power10(width)
    ensures at + width < |text| && text[at + width] == mark && text[at + width + 1..] == rest
    ensures AllDigits(text[at..at + width]) && Number(text[at..at + width]) == n
  {
    NumberOfFixed(n, width);
    assert |text[at..]| == width + 1 + |rest|;
    assert text[at..at + width] == text[at..][..width] == Fixed(n, width);
    assert text[at + width] == text[at..][width];
    assert text[at + width + 1..] == text[at..][width + 1..];
  }

  lemma CanonicalNumbers(f: Fields)
    requires Real(f)
    ensures var text := Canonical(f);
      |text| == 24 && Separated(text)
      && AllDigits(text[0..4]) && AllDigits(text[5..7]) && AllDigits(text[8..10]) && AllDigits(text[11..13])
      && AllDigits(text[14..16]) && AllDigits(text[17..19]) && AllDigits(text[20..23])
      && Number(text[0..4]) == f.date.year && Number(text[5..7]) == f.date.month
      && Number(text[8..10]) == f.date.day && Number(text[11..13]) == f.hour
      && Number(text[14..16]) == f.minute && Number(text[17..19]) == f.second && Number(text[20..23]) == f.millis
  {
    Powers();
    var text := Canonical(f);
    var f7 := Fixed(f.millis, 3) + ([LETTER_Z] + []);
    assert f7 == Fixed(f.millis, 3) + [LETTER_Z];
    var f6 := Fixed(f.second, 2) + ([DOT] + f7);
    var f5 := Fixed(f.minute, 2) + ([COLON] + f6);
    var f4 := Fixed(f.hour, 2) + ([COLON] + f5);
    var f3 := Fixed(f.date.day, 2) + ([LETTER_T] + f4);
    var f2 := Fixed(f.date.month, 2) + ([DASH] + f3);
    assert text[0..] == text;
    FieldAt(text, 0, f.date.year, 4, DASH, f2);
    FieldAt(text, 5, f.date.month, 2, DASH, f3);
    FieldAt(text, 8, f.date.day, 2, LETTER_T, f4);
    FieldAt(text, 11, f.hour, 2, COLON, f5);
    FieldAt(text, 14, f.minute, 2, COLON, f6);
    FieldAt(text, 17, f.second, 2, DOT, f7);
    FieldAt(text, 20, f.millis, 3, LETTER_Z, []);
  }

  lemma NumbersGiveDays(text: Bytes, f: Fields)
    requires Real(f)
    ensures FromNumbers(text, f.date.year, f.date.month, f.date.day, f.hour, f.minute, f.second, f.millis)
         == FromDays(text, DayCount(f.date), f.hour, f.minute, f.second, f.millis)
  {
    DaysFromCivilCounts(f.date);
  }

  lemma PrintsBack(f: Fields)
    requires Real(f)
    ensures 0 <= Millis(f) <= MAX_MILLIS && Print(Millis(f)) == Canonical(f)
  {
    FieldsOfMillis(f);
    PrintIsCanonical(Millis(f));
  }

  lemma FromTotal(text: Bytes, days: int, hour: nat, minute: nat, second: nat, millis: nat, total: int)
    requires total == days * MILLIS_PER_DAY + ((hour * 60 + minute) * 60 + second) * 1000 + millis
    requires 0 <= total <= MAX_MILLIS && Print(total) == text
    ensures FromDays(text, days, hour, minute, second, millis) == Some(total)
  {
  }

  lemma DaysGiveMillis(f: Fields)
    requires Real(f)
    ensures FromDays(Canonical(f), DayCount(f.date), f.hour, f.minute, f.second, f.millis) == Some(Millis(f))
  {
    PrintsBack(f);
    FromTotal(Canonical(f), DayCount(f.date), f.hour, f.minute, f.second, f.millis, Millis(f));
  }

  lemma ParseCanonical(f: Fields)
    requires Real(f)
    ensures Parse(Canonical(f)) == Some(Millis(f))
  {
    CanonicalNumbers(f);
    NumbersGiveDays(Canonical(f), f);
    DaysGiveMillis(f);
  }

  lemma ParsePrint(t: Instant)
    ensures Parse(Print(t)) == Some(t)
  {
    PrintIsCanonical(t);
    FieldsOfReal(t);
    ParseCanonical(FieldsOf(t));
  }

  /** Exactly the canonical texts of real dates and times are accepted. */
  lemma ParseAcceptsExactly(text: Bytes)
    ensures Parse(text).Some? <==> exists f :: Real(f) && text == Canonical(f)
  {
    if Parse(text).Some? {
      PrintIsCanonical(Parse(text).value);
    }
    if f :| Real(f) && text == Canonical(f) {
      ParseCanonical(f);
    }
  }
}
