/**
 * Naive datetimes (Python's datetime.datetime without tzinfo), the strftime
 * formats the programs use, the strptime parse the newer clients apply to a
 * reply's `time`, and the exact microsecond difference Python computes when
 * it subtracts two datetimes.
 */
module Clock {
  import opened Codec

  datatype Stamp = Stamp(year: int, month: int, day: int, hour: int, minute: int, second: int, micro: int)

  predicate IsLeap(y: int) {
    y % 4 == 0 && (y % 100 != 0 || y % 400 == 0)
  }

  function DaysInMonth(y: int, m: int): (d: int)
    requires 1 <= m <= 12
    ensures 28 <= d <= 31
    ensures m == 2 ==> (d == 29 <==> IsLeap(y))
  {
    if m == 2 then (if IsLeap(y) then 29 else 28)
    else if m == 4 || m == 6 || m == 9 || m == 11 then 30
    else 31
  }

  /** The range checks datetime's constructor applies to its fields. */
  predicate ValidStamp(s: Stamp) {
    && 1 <= s.year <= 9999
    && 1 <= s.month <= 12
    && 1 <= s.day <= DaysInMonth(s.year, s.month)
    && 0 <= s.hour < 24
    && 0 <= s.minute < 60
    && 0 <= s.second < 60
    && 0 <= s.micro < 1000000
  }

  type DateTime = s: Stamp | ValidStamp(s) witness Stamp(1970, 1, 1, 0, 0, 0, 0)

  /** The same instant with the microseconds dropped, as a seconds-precision format keeps it. */
  function Truncate(t: DateTime): (r: DateTime)
    ensures r.micro == 0
    ensures r.(micro := t.micro) == t
  {
    t.(micro := 0)
  }

  // ---------------------------------------------------------------------
  // Fixed-width decimal fields
  // ---------------------------------------------------------------------

  predicate IsDigit(c: char) {
    '0' <= c <= '9'
  }

  predicate AllDigits(s: string) {
    forall i :: 0 <= i < |s| ==> IsDigit(s[i])
  }

  function Pow10(w: nat): nat {
    if w == 0 then 1 else 10 * Pow10(w - 1)
  }

  /** `n` written with exactly `w` decimal digits, zero-padded on the left (strftime's %02d, %04d, %06d). */
  function Digits(n: nat, w: nat): (s: string)
    ensures |s| == w && AllDigits(s)
  {
    if w == 0 then [] else Digits(n / 10, w - 1) + [('0' as int + n % 10) as char]
  }

  /** The number a string of decimal digits denotes. */
  function DigitsValue(s: string): (v: nat)
    requires AllDigits(s)
    ensures v < Pow10(|s|)
  {
    if s == [] then 0
    else DigitsValue(s[..|s| - 1]) * 10 + (s[|s| - 1] as int - '0' as int)
  }

  /** Reading back a field that fits its width gives the number that was written. */
  lemma {:induction false} DigitsRoundTrip(n: nat, w: nat)
    requires n < Pow10(w)
    ensures DigitsValue(Digits(n, w)) == n
  {
    if w > 0 {
      var s := Digits(n, w);
      assert s[..w - 1] == Digits(n / 10, w - 1);
      DigitsRoundTrip(n / 10, w - 1);
    }
  }

  /** A field of digits is the fixed-width rendering of its own value. */
  lemma {:induction false} DigitsCanonical(s: string)
    requires AllDigits(s)
    ensures Digits(DigitsValue(s), |s|) == s
  {
    if s != [] {
      var init, last := s[..|s| - 1], s[|s| - 1];
      var d := last as int - '0' as int;
      var v := DigitsValue(s);
      assert v == DigitsValue(init) * 10 + d && 0 <= d < 10;
      assert v / 10 == DigitsValue(init) && v % 10 == d;
      assert ('0' as int + d) as char == last;
      DigitsCanonical(init);
      assert Digits(v, |s|) == Digits(v / 10, |s| - 1) + [last];
      assert s == init + [last];
    }
  }

  // ---------------------------------------------------------------------
  // strftime formats
  // ---------------------------------------------------------------------

  /** '%Y-%m-%dT%H:%M:%S', the reply's `time` field and the challenge-response input. */
  function IsoSeconds(t: DateTime): (s: string)
    ensures |s| == 19
  {
    Digits(t.year, 4) + "-" + Digits(t.month, 2) + "-" + Digits(t.day, 2) + "T"
    + Digits(t.hour, 2) + ":" + Digits(t.minute, 2) + ":" + Digits(t.second, 2)
  }

  /** '%Y-%m-%dT%H:%M:%S.%f', the clock string the newer clients hash into a challenge. */
  function IsoMicros(t: DateTime): (s: string)
    ensures |s| == 26 && s[..19] == IsoSeconds(t)
  {
    IsoSeconds(t) + "." + Digits(t.micro, 6)
  }

  /** '%Y%m%d %H%M%S.%f', the clock string the oldest client hashes into a challenge. */
  function CompactMicros(t: DateTime): (s: string)
    ensures |s| == 22
  {
    Digits(t.year, 4) + Digits(t.month, 2) + Digits(t.day, 2) + " "
    + Digits(t.hour, 2) + Digits(t.minute, 2) + Digits(t.second, 2) + "." + Digits(t.micro, 6)
  }

  /** '%Y-%m-%d %H:%M:%S', the `time` field of the JSON application's reply. */
  function SpacedSeconds(t: DateTime): (s: string)
    ensures |s| == 19 && s[10] == ' '
    ensures s[..10] == IsoSeconds(t)[..10] && s[11..] == IsoSeconds(t)[11..]
  {
    var date := Digits(t.year, 4) + "-" + Digits(t.month, 2) + "-" + Digits(t.day, 2);
    var time := Digits(t.hour, 2) + ":" + Digits(t.minute, 2) + ":" + Digits(t.second, 2);
    assert IsoSeconds(t) == date + "T" + time;
    assert (date + " " + time)[..10] == date && (date + "T" + time)[..10] == date;
    assert (date + " " + time)[11..] == time && (date + "T" + time)[11..] == time;
    date + " " + time
  }

  /** '%S.%f', the seconds-and-microseconds string the server may stir into /dev/urandom. */
  function SecondsMicros(t: DateTime): (s: string)
    ensures |s| == 9 && s[..2] == IsoSeconds(t)[17..]
  {
    Digits(t.second, 2) + "." + Digits(t.micro, 6)
  }

  // ---------------------------------------------------------------------
  // strptime(s, '%Y-%m-%dT%H:%M:%S')
  // ---------------------------------------------------------------------

  /** The separator positions and digit fields of the canonical seconds-precision form. */
  predicate IsoShape(s: string) {
    && |s| == 19
    && s[4] == '-' && s[7] == '-' && s[10] == 'T' && s[13] == ':' && s[16] == ':'
    && AllDigits(s[0..4]) && AllDigits(s[5..7]) && AllDigits(s[8..10])
    && AllDigits(s[11..13]) && AllDigits(s[14..16]) && AllDigits(s[17..19])
  }

  /**
   * The datetime a reply's `time` string denotes in the zero-padded form, or
   * None (ValueError) for any other shape or for a field out of range such as
   * 30 February.
   */
  function ParseIso(s: string): (r: Option<DateTime>)
    ensures r.Some? ==> IsoShape(s) && r.value.micro == 0
  {
    if !IsoShape(s) then None
    else
      var st := Stamp(DigitsValue(s[0..4]), DigitsValue(s[5..7]), DigitsValue(s[8..10]),
                      DigitsValue(s[11..13]), DigitsValue(s[14..16]), DigitsValue(s[17..19]), 0);
      if ValidStamp(st) then Some(st) else None
  }

  /** Parsing the seconds-precision rendering of a datetime gives it back, less its microseconds. */
  lemma ParseIsoRoundTrip(t: DateTime)
    ensures ParseIso(IsoSeconds(t)) == Some(Truncate(t))
  {
    var s := IsoSeconds(t);
    assert s[0..4] == Digits(t.year, 4);
    assert s[5..7] == Digits(t.month, 2);
    assert s[8..10] == Digits(t.day, 2);
    assert s[11..13] == Digits(t.hour, 2);
    assert s[14..16] == Digits(t.minute, 2);
    assert s[17..19] == Digits(t.second, 2);
    DigitsRoundTrip(t.year, 4);
    DigitsRoundTrip(t.month, 2);
    DigitsRoundTrip(t.day, 2);
    DigitsRoundTrip(t.hour, 2);
    DigitsRoundTrip(t.minute, 2);
    DigitsRoundTrip(t.second, 2);
  }

  /** The only strings the parse accepts are canonical renderings: it is one-to-one. */
  lemma ParseIsoCanonical(s: string)
    requires ParseIso(s).Some?
    ensures IsoSeconds(ParseIso(s).value) == s
  {
    var t := ParseIso(s).value;
    DateCanonical(s);
    TimeCanonical(s);
    var date := Digits(t.year, 4) + "-" + Digits(t.month, 2) + "-" + Digits(t.day, 2);
    var time := Digits(t.hour, 2) + ":" + Digits(t.minute, 2) + ":" + Digits(t.second, 2);
    assert IsoSeconds(t) == date + "T" + time;
    assert s == s[..10] + [s[10]] + s[11..];
  }

  /** The date half of a well-shaped string is the rendering of its three fields. */
  lemma DateCanonical(s: string)
    requires IsoShape(s)
    ensures Digits(DigitsValue(s[0..4]), 4) + "-" + Digits(DigitsValue(s[5..7]), 2) + "-" + Digits(DigitsValue(s[8..10]), 2) == s[..10]
  {
    DigitsCanonical(s[0..4]);
    DigitsCanonical(s[5..7]);
    DigitsCanonical(s[8..10]);
    assert s[..10] == s[0..4] + [s[4]] + s[5..7] + [s[7]] + s[8..10];
  }

  /** The time half of a well-shaped string is the rendering of its three fields. */
  lemma TimeCanonical(s: string)
    requires IsoShape(s)
    ensures Digits(DigitsValue(s[11..13]), 2) + ":" + Digits(DigitsValue(s[14..16]), 2) + ":" + Digits(DigitsValue(s[17..19]), 2) == s[11..]
  {
    DigitsCanonical(s[11..13]);
    DigitsCanonical(s[14..16]);
    DigitsCanonical(s[17..19]);
    assert s[11..] == s[11..13] + [s[13]] + s[14..16] + [s[16]] + s[17..19];
  }

  // ---------------------------------------------------------------------
  // Datetime subtraction, exact to the microsecond
  // ---------------------------------------------------------------------

  function DaysBeforeYear(y: int): int {
    var y1 := y - 1;
    y1 * 365 + y1 / 4 - y1 / 100 + y1 / 400
  }

  function DaysBeforeMonth(y: int, m: int): int
    requires 1 <= m <= 12
  {
    var table := [0, 31, 59, 90, 120, 151, 181, 212, 243, 273, 304, 334];
    table[m - 1] + (if m > 2 && IsLeap(y) then 1 else 0)
  }

  /** The proleptic Gregorian day number (date.toordinal): 1 January of year 1 is day 1. */
  function Ordinal(t: DateTime): int {
    DaysBeforeYear(t.year) + DaysBeforeMonth(t.year, t.month) + t.day
  }

  /**
   * The day ordinal times 86400 * 10^6 plus the time of day in microseconds
   * (so 0001-01-01 00:00 counts one day); `a - b` between datetimes is
   * ToMicros(a) - ToMicros(b).
   */
  function ToMicros(t: DateTime): (us: int)
    ensures us % 1000000 == t.micro
  {
    var seconds := ((Ordinal(t) * 24 + t.hour) * 60 + t.minute) * 60 + t.second;
    MicroRemainder(seconds, t.micro);
    seconds * 1000000 + t.micro
  }

  lemma MicroRemainder(seconds: int, micro: int)
    requires 0 <= micro < 1000000
    ensures (seconds * 1000000 + micro) % 1000000 == micro
  {
  }

  /** Chronological order: year, month, day, hour, minute, second and microsecond compared in turn. */
  predicate Before(a: Stamp, b: Stamp) {
    if a.year != b.year then a.year < b.year
    else if a.month != b.month then a.month < b.month
    else if a.day != b.day then a.day < b.day
    else if a.hour != b.hour then a.hour < b.hour
    else if a.minute != b.minute then a.minute < b.minute
    else if a.second != b.second then a.second < b.second
    else a.micro < b.micro
  }

  /** Year y has 365 days, or 366 when it is a leap year: the last month ends where year y + 1 begins. */
  lemma YearLength(y: int)
    ensures DaysBeforeYear(y + 1) == DaysBeforeYear(y) + DaysBeforeMonth(y, 12) + DaysInMonth(y, 12)
  {
    MultipleStep4(y);
    MultipleStep100(y);
    MultipleStep400(y);
    DivisorsNest(y);
    var leapDays := (if y % 4 == 0 then 1 else 0) - (if y % 100 == 0 then 1 else 0) + (if y % 400 == 0 then 1 else 0);
    assert leapDays == (if IsLeap(y) then 1 else 0);
    assert DaysBeforeYear(y + 1) == DaysBeforeYear(y) + 365 + leapDays;
    assert DaysBeforeMonth(y, 12) + DaysInMonth(y, 12) == 365 + (if IsLeap(y) then 1 else 0);
  }

  /** A multiple of 400 is a multiple of 100, which is a multiple of 4. */
  lemma DivisorsNest(y: int)
    ensures y % 400 == 0 ==> y % 100 == 0
    ensures y % 100 == 0 ==> y % 4 == 0
  {
  }

  /** Going from y - 1 to y passes one more multiple of 4 exactly when 4 divides y. */
  lemma MultipleStep4(y: int)
    ensures y / 4 == (y - 1) / 4 + (if y % 4 == 0 then 1 else 0)
  {
  }

  lemma MultipleStep100(y: int)
    ensures y / 100 == (y - 1) / 100 + (if y % 100 == 0 then 1 else 0)
  {
  }

  lemma MultipleStep400(y: int)
    ensures y / 400 == (y - 1) / 400 + (if y % 400 == 0 then 1 else 0)
  {
  }

  /** Every month of year y ends before any later month starts, and no later than the year does. */
  lemma MonthsOrdered(y: int, m1: int, m2: int)
    requires 1 <= m1 < m2 <= 12
    ensures DaysBeforeMonth(y, m1) + DaysInMonth(y, m1) <= DaysBeforeMonth(y, m2)
  {
  }

  /** Each month of a year ends exactly where the next one begins. */
  lemma MonthLength(y: int, m: int)
    requires 1 <= m < 12
    ensures DaysBeforeMonth(y, m) + DaysInMonth(y, m) == DaysBeforeMonth(y, m + 1)
  {
  }

  /** b's date is the calendar day after a's: the next day of the month, the first of the next month, or 1 January of the next year. */
  predicate NextDay(a: DateTime, b: DateTime) {
    if a.day < DaysInMonth(a.year, a.month) then b.year == a.year && b.month == a.month && b.day == a.day + 1
    else if a.month < 12 then b.year == a.year && b.month == a.month + 1 && b.day == 1
    else b.year == a.year + 1 && b.month == 1 && b.day == 1
  }

  /** Consecutive calendar days have consecutive day numbers, across month and year ends included. */
  lemma NextDayOrdinal(a: DateTime, b: DateTime)
    requires NextDay(a, b)
    ensures Ordinal(b) == Ordinal(a) + 1
  {
    if a.day < DaysInMonth(a.year, a.month) {
    } else if a.month < 12 {
      MonthLength(a.year, a.month);
    } else {
      YearLength(a.year);
    }
  }

  /** The same time of day on the next calendar day is exactly 86400 * 10^6 microseconds later. */
  lemma DayLater(a: DateTime, b: DateTime)
    requires NextDay(a, b)
    requires a.hour == b.hour && a.minute == b.minute && a.second == b.second && a.micro == b.micro
    ensures ToMicros(b) - ToMicros(a) == 86400000000
  {
    NextDayOrdinal(a, b);
    DaysAndTime(a);
    DaysAndTime(b);
  }

  /** Every day of year y1 comes before the first day of a later year y2. */
  lemma {:induction false} YearsOrdered(y1: int, y2: int)
    requires y1 < y2
    ensures DaysBeforeYear(y1) + DaysBeforeMonth(y1, 12) + DaysInMonth(y1, 12) <= DaysBeforeYear(y2)
    decreases y2 - y1
  {
    YearLength(y1);
    if y1 + 1 < y2 {
      YearsOrdered(y1 + 1, y2);
    }
  }

  /** A date earlier in the calendar has a smaller day number. */
  lemma OrdinalOrdered(a: DateTime, b: DateTime)
    requires a.year < b.year || (a.year == b.year && (a.month < b.month || (a.month == b.month && a.day < b.day)))
    ensures Ordinal(a) < Ordinal(b)
  {
    if a.month < 12 {
      MonthsOrdered(a.year, a.month, 12);
    }
    if a.year < b.year {
      YearsOrdered(a.year, b.year);
    } else if a.month < b.month {
      MonthsOrdered(a.year, a.month, b.month);
    }
  }

  /** A day holds 86400 * 10^6 microseconds, and the time of day counts them from midnight. */
  lemma DaysAndTime(t: DateTime)
    ensures ToMicros(t) == Ordinal(t) * 86400000000 + ((t.hour * 60 + t.minute) * 60 + t.second) * 1000000 + t.micro
    ensures 0 <= ((t.hour * 60 + t.minute) * 60 + t.second) * 1000000 + t.micro < 86400000000
  {
  }

  /** A datetime before another is fewer microseconds from the start of day 1. */
  lemma ToMicrosMonotone(a: DateTime, b: DateTime)
    requires Before(a, b)
    ensures ToMicros(a) < ToMicros(b)
  {
    DaysAndTime(a);
    DaysAndTime(b);
    if a.year != b.year || a.month != b.month || a.day != b.day {
      OrdinalOrdered(a, b);
    }
  }

  /**
   * ToMicros orders datetimes exactly as time does; in particular distinct
   * datetimes have distinct counts, so a difference of zero means equal.
   */
  lemma ToMicrosOrder(a: DateTime, b: DateTime)
    ensures Before(a, b) <==> ToMicros(a) < ToMicros(b)
    ensures ToMicros(a) == ToMicros(b) <==> a == b
  {
    if Before(a, b) {
      ToMicrosMonotone(a, b);
    } else if a != b {
      assert Before(b, a);
      ToMicrosMonotone(b, a);
    }
  }

  function Abs(x: int): nat {
    if x < 0 then -x else x
  }
}
