/**
 * The timestamp formatter of lexicon-core/src/session/model.rs: nanoseconds since the Unix
 * epoch to `YYYY-MM-DDTHH:MM:SS.nnnnnnnnnZ`.
 *
 * The dividends are never negative for a 64-bit count (the year 1970 is day 719468 of the
 * shifted calendar), so Dafny's division is the truncating division of the original.
 */
module Calendar {
  import opened Wrappers
  import opened Ordering

  const MAX_NANOS := 0xFFFF_FFFF_FFFF_FFFF

  datatype Date = Date(year: nat, month: nat, day: nat)

  // ---- The formatter ----

  /** The last `width` digits of `n`, preceded by any further digits it has. */
  function Padded(n: nat, width: nat): string
    decreases width, n
  {
    if width == 0 then (if n == 0 then "" else Padded(n / 10, 0) + [Digit(n % 10)])
    else Padded(n / 10, width - 1) + [Digit(n % 10)]
  }

  function Digit(d: nat): char
    requires d < 10
  {
    ('0' as int + d) as char
  }

  /** Year of the era and day of the year, from the day of a 400-year era that starts in March. */
  function YearOfEra(doe: nat): int {
    (doe - doe / 1460 + doe / 36524 - doe / 146096) / 365
  }

  function DayOfYear(doe: nat): int {
    var yoe := YearOfEra(doe);
    doe - (365 * yoe + yoe / 4 - yoe / 100)
  }

  function CivilFromDays(days: nat): Date {
    var z := days + 719468;
    var era := z / 146097;
    var doe := z - era * 146097;
    var yoe := YearOfEra(doe);
    EraDay(doe);
    var doy := DayOfYear(doe);
    var mp := (5 * doy + 2) / 153;
    var day := doy - (153 * mp + 2) / 5 + 1;
    var month := if mp < 10 then mp + 3 else mp - 9;
    var year := yoe + era * 400;
    Date(if month <= 2 then year + 1 else year, month, day)
  }

  /** A number, the width it is padded to, and the character that follows it. */
  datatype Field = Field(value: nat, width: nat, after: char)

  function Text(fields: seq<Field>): string {
    if fields == [] then ""
    else Padded(fields[0].value, fields[0].width) + ([fields[0].after] + Text(fields[1..]))
  }

  function Fields(secs: nat, nanos: nat): seq<Field> {
    var d, time := CivilFromDays(secs / 86400), secs % 86400;
    [Field(d.year, 4, '-'), Field(d.month, 2, '-'), Field(d.day, 2, 'T'),
     Field(time / 3600, 2, ':'), Field(time % 3600 / 60, 2, ':'), Field(time % 60, 2, '.'),
     Field(nanos, 9, 'Z')]
  }

  function FormatUnixTimestamp(secs: nat, nanos: nat): string {
    Text(Fields(secs, nanos))
  }

  function ToRfc3339Nanos(count: nat): string {
    FormatUnixTimestamp(count / 1_000_000_000, count % 1_000_000_000)
  }

  // ---- The Gregorian calendar ----

  /** Appendix C of RFC 3339. */
  predicate IsLeap(year: nat) {
    year % 4 == 0 && (year % 100 != 0 || year % 400 == 0)
  }

  function DaysInMonth(year: nat, month: nat): nat {
    if month == 2 then (if IsLeap(year) then 29 else 28)
    else if month in {4, 6, 9, 11} then 30 else 31
  }

  function DaysInYear(year: nat): nat {
    if IsLeap(year) then 366 else 365
  }

  predicate ValidDate(d: Date) {
    1 <= d.month <= 12 && 1 <= d.day <= DaysInMonth(d.year, d.month)
  }

  function DaysBeforeYear(year: nat): nat
    requires year >= 1970
  {
    if year == 1970 then 0 else DaysBeforeYear(year - 1) + DaysInYear(year - 1)
  }

  function DaysBeforeMonth(year: nat, month: nat): nat {
    if month <= 1 then 0 else DaysBeforeMonth(year, month - 1) + DaysInMonth(year, month - 1)
  }

  /** Days from 1 January 1970 to the date, counted year by year and month by month. */
  function DaysFromEpoch(d: Date): int
    requires d.year >= 1970
  {
    DaysBeforeYear(d.year) + DaysBeforeMonth(d.year, d.month) + d.day - 1
  }

  // ---- The formatter's date is the calendar's date ----

  /** A day of the era as century, four-year cycle, year of the cycle and day of that year. */
  predicate EraCoordinates(doe: nat, c: nat, q: nat, y: nat, r: nat) {
    && c <= 3 && q <= 24 && y <= 3 && r <= 365
    && doe == 36524 * c + 1461 * q + 365 * y + r
    && 1461 * q + 365 * y + r <= (if c == 3 then 36524 else 36523)
    && (r == 365 ==> y == 3)
  }

  lemma EraSplit(doe: nat) returns (c: nat, q: nat, y: nat, r: nat)
    requires doe < 146097
    ensures EraCoordinates(doe, c, q, y, r)
  {
    c := if doe < 36524 then 0 else if doe < 73048 then 1 else if doe < 109572 then 2 else 3;
    var century := doe - 36524 * c;
    q := century / 1461;
    var cycle := century - 1461 * q;
    y := if cycle < 365 then 0 else if cycle < 730 then 1 else if cycle < 1095 then 2 else 3;
    r := cycle - 365 * y;
  }

  lemma EraCenturies(doe: nat, c: nat, q: nat, y: nat, r: nat)
    requires EraCoordinates(doe, c, q, y, r)
    ensures doe / 36524 - doe / 146096 == c
  {
  }

  /** The quotient by 1460 exceeds the count of cycles by at most one: by one on a day 365. */
  lemma EraCycles(doe: nat, c: nat, q: nat, y: nat, r: nat)
    requires EraCoordinates(doe, c, q, y, r)
    ensures var t := doe / 1460 - (25 * c + q);
            0 <= t <= 1 && (r == 365 ==> t == 1) && (r == 0 ==> t == 0)
  {
    var over := 24 * c + q + 365 * y + r;
    assert doe == 1460 * (25 * c + q) + over && over < 2920;
    assert over >= 1460 <==> doe / 1460 == 25 * c + q + 1;
    assert over < 1460 <==> doe / 1460 == 25 * c + q;
  }

  /**
   * A day of the era is day `doy` of year `yoe`: the year estimate is exact, and day 365 exists
   * only in the years whose February, in the year after, is a leap one.
   */
  lemma EraDay(doe: nat)
    requires doe < 146097
    ensures var yoe, doy := YearOfEra(doe), DayOfYear(doe);
            && 0 <= yoe < 400 && 0 <= doy <= 365
            && doe == 365 * yoe + yoe / 4 - yoe / 100 + doy
            && (doy == 365 ==> IsLeap(yoe + 1))
  {
    var c, q, y, r := EraSplit(doe);
    EraCenturies(doe, c, q, y, r);
    EraCycles(doe, c, q, y, r);
    var yoe := 100 * c + 4 * q + y;
    var t := doe / 1460 - (25 * c + q);
    assert doe - doe / 1460 + doe / 36524 - doe / 146096 == 365 * yoe + (r - t);
    YearQuotients(yoe, r - t, c, q, y);
    if r == 365 {
      EraLeap(c, q);
    }
  }

  lemma YearQuotients(yoe: nat, rest: nat, c: nat, q: nat, y: nat)
    requires c <= 3 && q <= 24 && y <= 3 && yoe == 100 * c + 4 * q + y && rest < 365
    ensures (365 * yoe + rest) / 365 == yoe && yoe / 4 == 25 * c + q && yoe / 100 == c
  {
  }

  lemma EraLeap(c: nat, q: nat)
    requires c <= 3 && q <= 24 && (q == 24 ==> c == 3)
    ensures IsLeap(100 * c + 4 * q + 4)
  {
    var year := 100 * c + 4 * q + 4;
    assert year % 4 == 0;
    if q < 24 {
      assert year % 100 == 4 * q + 4;
    }
  }

  lemma {:induction false} DaysBeforeYearClosed(year: nat)
    requires year >= 1970
    ensures DaysBeforeYear(year)
         == 365 * (year - 1970) + (year - 1) / 4 - (year - 1) / 100 + (year - 1) / 400 - 477
    decreases year
  {
    hide DaysInYear;
    if year > 1970 {
      DaysBeforeYearClosed(year - 1);
      QuotientSteps(year - 1);
    }
  }

  lemma QuotientSteps(n: nat)
    requires n > 0
    ensures DaysInYear(n) == 365 + (n / 4 - (n - 1) / 4) - (n / 100 - (n - 1) / 100) + (n / 400 - (n - 1) / 400)
  {
    assert n / 4 - (n - 1) / 4 == if n % 4 == 0 then 1 else 0;
    assert n / 100 - (n - 1) / 100 == if n % 100 == 0 then 1 else 0;
    assert n / 400 - (n - 1) / 400 == if n % 400 == 0 then 1 else 0;
    assert n % 100 == 0 ==> n % 4 == 0;
    assert n % 400 == 0 ==> n % 100 == 0;
  }

  /** The months counted from March: the formula 153, 2, 5 is the table of month lengths. */
  lemma MonthTable(year: nat, mp: nat)
    requires mp < 12
    ensures var month := if mp < 10 then mp + 3 else mp - 9;
            var start := (153 * mp + 2) / 5;
            && DaysBeforeMonth(year, month)
               == (if mp < 10 then 59 + (if IsLeap(year) then 1 else 0) + start else start - 306)
            && (mp < 11 ==> DaysInMonth(year, month) == (153 * (mp + 1) + 2) / 5 - start)
            && (mp == 11 ==> DaysInMonth(year, month) == if IsLeap(year) then 29 else 28)
  {
    var jan := DaysBeforeMonth(year, 2);
    assert DaysBeforeMonth(year, 1) == 0 && jan == 31;
    var feb := DaysBeforeMonth(year, 3);
    assert feb == 31 + DaysInMonth(year, 2);
    assert DaysBeforeMonth(year, 4) == feb + 31;
    assert DaysBeforeMonth(year, 5) == feb + 61;
    assert DaysBeforeMonth(year, 6) == feb + 92;
    assert DaysBeforeMonth(year, 7) == feb + 122;
    assert DaysBeforeMonth(year, 8) == feb + 153;
    assert DaysBeforeMonth(year, 9) == feb + 184;
    assert DaysBeforeMonth(year, 10) == feb + 214;
    assert DaysBeforeMonth(year, 11) == feb + 245;
    assert DaysBeforeMonth(year, 12) == feb + 275;
  }

  lemma MonthOfDay(doy: nat)
    requires doy <= 365
    ensures var mp := (5 * doy + 2) / 153;
            && mp < 12 && (153 * mp + 2) / 5 <= doy
            && (if mp < 11 then doy < (153 * (mp + 1) + 2) / 5 else doy - (153 * mp + 2) / 5 <= 28)
            && (mp >= 10 <==> doy >= 306)
            && (doy - (153 * mp + 2) / 5 == 28 && mp == 11 ==> doy == 365)
  {
  }

  /** The formatter's date is valid and lies the right number of days after the epoch. */
  lemma CivilIsDate(days: nat)
    ensures var d := CivilFromDays(days);
            ValidDate(d) && d.year >= 1970 && DaysFromEpoch(d) == days
  {
    hide YearOfEra, DayOfYear, IsLeap, DaysBeforeYear, DaysBeforeMonth, DaysInYear, DaysInMonth;
    var z := days + 719468;
    var era := z / 146097;
    var doe := z - era * 146097;
    EraDay(doe);
    var yoe, doy := YearOfEra(doe), DayOfYear(doe);
    MonthOfDay(doy);
    var d := CivilFromDays(days);
    MonthTable(d.year, (5 * doy + 2) / 153);
    MarchYear(days, era, yoe, doy);
    CalendarYear(yoe + era * 400);
    LeapInEra(yoe + 1, era);
  }

  /** The years of the shifted calendar against those that start in January. */
  lemma CalendarYear(y: nat)
    requires y >= 1969
    ensures y > 1969 ==>
      365 * y + y / 4 - y / 100 + y / 400 - 719468
      == DaysBeforeYear(y) + 59 + if IsLeap(y) then 1 else 0
    ensures 365 * y + y / 4 - y / 100 + y / 400 - 719468 == DaysBeforeYear(y + 1) - 306
  {
    DaysBeforeYearClosed(y + 1);
    if y > 1969 {
      DaysBeforeYearClosed(y);
      QuotientSteps(y);
    }
  }

  lemma {:induction false} LeapInEra(year: nat, era: nat)
    ensures IsLeap(year + 400 * era) <==> IsLeap(year)
    decreases era
  {
    if era > 0 {
      LeapInEra(year + 400, era - 1);
      assert (year + 400) % 400 == year % 400;
      assert (year + 400) % 100 == year % 100;
      assert (year + 400) % 4 == year % 4;
    }
  }

  lemma MarchYear(days: nat, era: nat, yoe: nat, doy: nat)
    requires yoe < 400 && doy <= 365
    requires days + 719468 == era * 146097 + 365 * yoe + yoe / 4 - yoe / 100 + doy
    ensures var y := yoe + era * 400;
            days == 365 * y + y / 4 - y / 100 + y / 400 - 719468 + doy
    ensures yoe + era * 400 >= 1969 && (yoe + era * 400 == 1969 ==> doy >= 306)
  {
    var y := yoe + era * 400;
    assert y / 4 == yoe / 4 + era * 100;
    assert y / 100 == yoe / 100 + era * 4;
    assert y / 400 == era;
  }

  // ---- The date is the only one, and later days have later dates ----

  predicate DateLess(a: Date, b: Date) {
    || a.year < b.year
    || (a.year == b.year && (a.month < b.month || (a.month == b.month && a.day < b.day)))
  }

  lemma {:induction false} MonthsAscend(year: nat, m: nat, n: nat)
    requires 1 <= m < n
    ensures DaysBeforeMonth(year, m) + DaysInMonth(year, m) <= DaysBeforeMonth(year, n)
    decreases n
  {
    if m + 1 < n {
      MonthsAscend(year, m, n - 1);
    }
  }

  lemma {:induction false} YearsAscend(y: nat, z: nat)
    requires 1970 <= y < z
    ensures DaysBeforeYear(y) + DaysInYear(y) <= DaysBeforeYear(z)
    decreases z
  {
    if y + 1 < z {
      YearsAscend(y, z - 1);
    }
  }

  lemma DateWithinYear(d: Date)
    requires ValidDate(d)
    ensures DaysBeforeMonth(d.year, d.month) + d.day <= DaysInYear(d.year)
  {
    MonthTable(d.year, 9);
    if d.month < 12 {
      MonthsAscend(d.year, d.month, 12);
    }
  }

  lemma DaysAscend(a: Date, b: Date)
    requires ValidDate(a) && ValidDate(b) && a.year >= 1970 && DateLess(a, b)
    ensures DaysFromEpoch(a) < DaysFromEpoch(b)
  {
    if a.year < b.year {
      DateWithinYear(a);
      YearsAscend(a.year, b.year);
    } else if a.month < b.month {
      MonthsAscend(a.year, a.month, b.month);
    }
  }

  /** No other valid date lies that many days after the epoch. */
  lemma CivilIsOnlyDate(days: nat, d: Date)
    requires ValidDate(d) && d.year >= 1970 && DaysFromEpoch(d) == days
    ensures d == CivilFromDays(days)
  {
    hide CivilFromDays, DaysFromEpoch, ValidDate;
    var c := CivilFromDays(days);
    CivilIsDate(days);
    if DateLess(c, d) {
      DaysAscend(c, d);
    } else if DateLess(d, c) {
      DaysAscend(d, c);
    }
  }

  lemma CivilAscends(m: nat, n: nat)
    requires m < n
    ensures DateLess(CivilFromDays(m), CivilFromDays(n))
  {
    hide CivilFromDays, DaysFromEpoch, ValidDate;
    CivilIsDate(m);
    CivilIsDate(n);
    if DateLess(CivilFromDays(n), CivilFromDays(m)) {
      DaysAscend(CivilFromDays(n), CivilFromDays(m));
    }
  }

  /** A 64-bit count of nanoseconds does not reach the year 2555. */
  lemma YearBound(days: nat)
    requires days <= MAX_NANOS / 1_000_000_000 / 86400
    ensures CivilFromDays(days).year < 2555
  {
    hide CivilFromDays;
    var d := CivilFromDays(days);
    CivilIsDate(days);
    DaysBeforeYearClosed(2555);
    if d.year > 2555 {
      YearsAscend(2555, d.year);
    }
  }

  // ---- The text ----

  function Pow10(w: nat): nat {
    if w == 0 then 1 else 10 * Pow10(w - 1)
  }

  lemma {:induction false} PaddedLength(n: nat, w: nat)
    requires n < Pow10(w)
    ensures |Padded(n, w)| == w
    decreases w
  {
    if w > 0 {
      PaddedLength(n / 10, w - 1);
    }
  }

  lemma {:induction false} PaddedAscends(m: nat, n: nat, w: nat)
    requires m < n < Pow10(w)
    ensures StringLess(Padded(m, w), Padded(n, w))
    decreases w
  {
    PaddedLength(m / 10, w - 1);
    PaddedLength(n / 10, w - 1);
    if m / 10 < n / 10 {
      PaddedAscends(m / 10, n / 10, w - 1);
      StringLessExtend(Padded(m / 10, w - 1), Padded(n / 10, w - 1), [Digit(m % 10)], [Digit(n % 10)]);
    } else {
      StringLessPrefix(Padded(m / 10, w - 1), [Digit(m % 10)], [Digit(n % 10)]);
    }
  }

  predicate FieldsFit(fields: seq<Field>) {
    forall i :: 0 <= i < |fields| ==> fields[i].value < Pow10(fields[i].width)
  }

  /** The same widths and separators, and values in ascending lexicographic order. */
  predicate FieldsLess(a: seq<Field>, b: seq<Field>) {
    && a != [] && |a| == |b| && a[0].width == b[0].width && a[0].after == b[0].after
    && (a[0].value < b[0].value || (a[0].value == b[0].value && FieldsLess(a[1..], b[1..])))
  }

  lemma {:induction false} TextAscends(a: seq<Field>, b: seq<Field>)
    requires FieldsFit(a) && FieldsFit(b) && FieldsLess(a, b)
    ensures StringLess(Text(a), Text(b))
    decreases |a|
  {
    var x, y := [a[0].after] + Text(a[1..]), [b[0].after] + Text(b[1..]);
    PaddedLength(a[0].value, a[0].width);
    PaddedLength(b[0].value, b[0].width);
    if a[0].value < b[0].value {
      PaddedAscends(a[0].value, b[0].value, a[0].width);
      StringLessExtend(Padded(a[0].value, a[0].width), Padded(b[0].value, b[0].width), x, y);
    } else {
      TextAscends(a[1..], b[1..]);
      StringLessPrefix([a[0].after], Text(a[1..]), Text(b[1..]));
      StringLessPrefix(Padded(a[0].value, a[0].width), x, y);
    }
  }

  function TextWidth(fields: seq<Field>): nat {
    if fields == [] then 0 else fields[0].width + 1 + TextWidth(fields[1..])
  }

  lemma {:induction false} TextLength(fields: seq<Field>)
    requires FieldsFit(fields)
    ensures |Text(fields)| == TextWidth(fields)
    decreases |fields|
  {
    if fields != [] {
      PaddedLength(fields[0].value, fields[0].width);
      TextLength(fields[1..]);
    }
  }

  lemma FieldsFitAlways(secs: nat, nanos: nat)
    requires secs <= MAX_NANOS / 1_000_000_000 && nanos < 1_000_000_000
    ensures FieldsFit(Fields(secs, nanos))
  {
    hide CivilFromDays;
    YearBound(secs / 86400);
    CivilIsDate(secs / 86400);
    assert Pow10(1) == 10 && Pow10(2) == 100 && Pow10(3) == 1000 && Pow10(4) == 10000;
    assert Pow10(5) == 100000 && Pow10(6) == 1000000 && Pow10(7) == 10000000;
    assert Pow10(8) == 100000000 && Pow10(9) == 1000000000;
  }

  /** Every 64-bit count gives exactly thirty characters. */
  lemma FormatWidth(count: nat)
    requires count <= MAX_NANOS
    ensures |ToRfc3339Nanos(count)| == 30
  {
    hide CivilFromDays, FieldsFit;
    var secs, nanos := count / 1_000_000_000, count % 1_000_000_000;
    FieldsFitAlways(secs, nanos);
    var f := Fields(secs, nanos);
    TextLength(f);
    assert TextWidth(f[6..]) == 10;
    assert f[5..][1..] == f[6..] && f[4..][1..] == f[5..] && f[3..][1..] == f[4..];
    assert f[2..][1..] == f[3..] && f[1..][1..] == f[2..];
    assert TextWidth(f[5..]) == 13 && TextWidth(f[4..]) == 16 && TextWidth(f[3..]) == 19;
    assert TextWidth(f[2..]) == 22 && TextWidth(f[1..]) == 25;
  }

  lemma {:induction false} FieldsLessAt(f: seq<Field>, g: seq<Field>, k: nat)
    requires |f| == |g| && k < |f|
    requires forall i :: 0 <= i < |f| ==> f[i].width == g[i].width && f[i].after == g[i].after
    requires forall i :: 0 <= i < k ==> f[i].value == g[i].value
    requires f[k].value < g[k].value
    ensures FieldsLess(f, g)
    decreases k
  {
    if k > 0 {
      FieldsLessAt(f[1..], g[1..], k - 1);
    }
  }

  lemma FieldsAscend(secs: nat, nanos: nat, secs': nat, nanos': nat)
    requires secs < secs' || (secs == secs' && nanos < nanos')
    ensures FieldsLess(Fields(secs, nanos), Fields(secs', nanos'))
  {
    hide CivilFromDays, FieldsLess;
    var f, g := Fields(secs, nanos), Fields(secs', nanos');
    var time, time' := secs % 86400, secs' % 86400;
    if secs / 86400 < secs' / 86400 {
      CivilAscends(secs / 86400, secs' / 86400);
    } else {
      assert time < time' || secs == secs';
    }
    assert time == time / 3600 * 3600 + time % 3600 / 60 * 60 + time % 60;
    assert time' == time' / 3600 * 3600 + time' % 3600 / 60 * 60 + time' % 60;
    var k := if f[0].value != g[0].value then 0 else if f[1].value != g[1].value then 1
             else if f[2].value != g[2].value then 2 else if f[3].value != g[3].value then 3
             else if f[4].value != g[4].value then 4 else if f[5].value != g[5].value then 5 else 6;
    FieldsLessAt(f, g, k);
  }

  /**
   * Later instants have lexicographically greater texts, over the whole 64-bit range. Formatting
   * is therefore injective, and sorting texts sorts instants (RFC 3339, section 5.1).
   */
  lemma FormatAscends(m: nat, n: nat)
    requires m < n <= MAX_NANOS
    ensures StringLess(ToRfc3339Nanos(m), ToRfc3339Nanos(n))
    ensures ToRfc3339Nanos(m) != ToRfc3339Nanos(n)
  {
    hide Fields, FieldsFit, FieldsLess;
    var s, t := m / 1_000_000_000, n / 1_000_000_000;
    FieldsFitAlways(s, m % 1_000_000_000);
    FieldsFitAlways(t, n % 1_000_000_000);
    FieldsAscend(s, m % 1_000_000_000, t, n % 1_000_000_000);
    TextAscends(Fields(s, m % 1_000_000_000), Fields(t, n % 1_000_000_000));
    StringLessIrreflexive(ToRfc3339Nanos(m));
  }

  // ---- Reading a timestamp back ----

  function DigitsValue(digits: string): int {
    if digits == "" then 0
    else DigitsValue(digits[..|digits| - 1]) * 10 + (digits[|digits| - 1] as int - '0' as int)
  }

  predicate Decimal(digits: string) {
    forall i :: 0 <= i < |digits| ==> '0' <= digits[i] <= '9'
  }

  /** The decimal numbers of the given widths in a text, each followed by its separator, and nothing else. */
  function ReadNumbers(text: string, widths: seq<nat>, separators: string): Option<seq<int>>
    requires |separators| == |widths|
  {
    if widths == [] then (if text == "" then Some([]) else None)
    else
      var w := widths[0];
      if |text| <= w || !Decimal(text[..w]) || text[w] != separators[0] then None
      else
        var rest := ReadNumbers(text[w + 1..], widths[1..], separators[1..]);
        if rest.None? then None else Some([DigitsValue(text[..w])] + rest.value)
  }

  /** The instant a timestamp names: RFC 3339, section 5.6, with the calendar counted out. */
  function ParseRfc3339Nanos(text: string): int {
    var numbers := ReadNumbers(text, [4, 2, 2, 2, 2, 2, 9], "--T::.Z");
    if numbers.None? || |numbers.value| != 7 then -1
    else
      var v := numbers.value;
      if v[0] < 1970 || v[1] < 0 || v[2] < 0 then -1 else
      var days := DaysFromEpoch(Date(v[0], v[1], v[2]));
      (days * 86400 + v[3] * 3600 + v[4] * 60 + v[5]) * 1_000_000_000 + v[6]
  }

  lemma {:induction false} DigitsOfPadded(n: nat, w: nat)
    requires n < Pow10(w)
    ensures DigitsValue(Padded(n, w)) == n && Decimal(Padded(n, w))
    decreases w
  {
    if w > 0 {
      DigitsOfPadded(n / 10, w - 1);
      var digits := Padded(n, w);
      assert digits[..|digits| - 1] == Padded(n / 10, w - 1);
      assert digits[|digits| - 1] == Digit(n % 10);
    }
  }

  lemma ReadOne(n: nat, w: nat, after: char, text: string, widths: seq<nat>, separators: string)
    requires n < Pow10(w) && |separators| == |widths|
    ensures var rest := ReadNumbers(text, widths, separators);
            ReadNumbers(Padded(n, w) + ([after] + text), [w] + widths, [after] + separators)
            == if rest.None? then None else Some([n] + rest.value)
  {
    hide Padded, Decimal, DigitsValue, Pow10;
    PaddedLength(n, w);
    DigitsOfPadded(n, w);
    var whole := Padded(n, w) + ([after] + text);
    assert whole[..w] == Padded(n, w) && whole[w] == after && whole[w + 1..] == text;
    assert ([w] + widths)[1..] == widths && ([after] + separators)[1..] == separators;
  }

  function Widths(fields: seq<Field>): seq<nat> {
    seq(|fields|, i requires 0 <= i < |fields| => fields[i].width)
  }

  function Separators(fields: seq<Field>): string {
    seq(|fields|, i requires 0 <= i < |fields| => fields[i].after)
  }

  function Values(fields: seq<Field>): seq<int> {
    seq(|fields|, i requires 0 <= i < |fields| => fields[i].value)
  }

  lemma FieldsCons(fields: seq<Field>)
    requires fields != []
    ensures Widths(fields) == [fields[0].width] + Widths(fields[1..])
    ensures Separators(fields) == [fields[0].after] + Separators(fields[1..])
    ensures Values(fields) == [fields[0].value] + Values(fields[1..])
  {
  }

  lemma {:induction false} ReadText(fields: seq<Field>)
    requires FieldsFit(fields)
    ensures ReadNumbers(Text(fields), Widths(fields), Separators(fields)) == Some(Values(fields))
    decreases |fields|
  {
    hide Padded, Pow10;
    if fields == [] {
      assert Values(fields) == [];
    } else {
      hide ReadNumbers, Widths, Separators, Values;
      var Field(n, w, after) := fields[0];
      FieldsCons(fields);
      ReadText(fields[1..]);
      ReadOne(n, w, after, Text(fields[1..]), Widths(fields[1..]), Separators(fields[1..]));
    }
  }

  /** Reading the text of a count gives the count back. */
  lemma FormatRoundTrip(count: nat)
    requires count <= MAX_NANOS
    ensures ParseRfc3339Nanos(ToRfc3339Nanos(count)) == count
  {
    hide CivilFromDays, FieldsFit, ReadNumbers, Text, DaysFromEpoch, ValidDate;
    var secs, nanos := count / 1_000_000_000, count % 1_000_000_000;
    FieldsFitAlways(secs, nanos);
    var f := Fields(secs, nanos);
    ReadText(f);
    assert Widths(f) == [4, 2, 2, 2, 2, 2, 9] && Separators(f) == "--T::.Z";
    CivilIsDate(secs / 86400);
    var time := secs % 86400;
    assert time / 3600 * 3600 + time % 3600 / 60 * 60 + time % 60 == time;
  }
}
