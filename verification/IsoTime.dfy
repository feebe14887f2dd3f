/** The `now_iso` time stamps, which the platform's tables compare as strings. */
module IsoTime {
  /** A UTC date and time to the second, as `datetime` holds it. */
  datatype Utc = Utc(year: nat, month: nat, day: nat, hour: nat, minute: nat, second: nat)

  predicate IsLeap(y: nat) {
    y % 4 == 0 && (y % 100 != 0 || y % 400 == 0)
  }

  function DaysInMonth(y: nat, m: nat): nat {
    if m == 2 then (if IsLeap(y) then 29 else 28) else if m in {4, 6, 9, 11} then 30 else 31
  }

  predicate Valid(t: Utc) {
    && 1 <= t.year <= 9999 && 1 <= t.month <= 12 && 1 <= t.day <= DaysInMonth(t.year, t.month)
    && t.hour < 24 && t.minute < 60 && t.second < 60
  }

  // ---- the instant -------------------------------------------------------------------------

  /** Days from the first of January of year 1 to the first of January of year `y`. */
  function DaysBeforeYear(y: nat): nat {
    if y <= 1 then 0 else DaysBeforeYear(y - 1) + if IsLeap(y - 1) then 366 else 365
  }

  function DaysBeforeMonth(y: nat, m: nat): nat {
    if m <= 1 then 0 else DaysBeforeMonth(y, m - 1) + DaysInMonth(y, m - 1)
  }

  function Day(t: Utc): int {
    DaysBeforeYear(t.year) + DaysBeforeMonth(t.year, t.month) + t.day - 1
  }

  /** Seconds since the start of year 1. */
  function Instant(t: Utc): int {
    86400 * Day(t) + 3600 * t.hour + 60 * t.minute + t.second
  }

  // ---- the calendar --------------------------------------------------------------------------

  /** The time one second later: every field counts up to its last value and starts again. */
  function NextSecond(t: Utc): Utc {
    if t.second < 59 then t.(second := t.second + 1)
    else if t.minute < 59 then t.(minute := t.minute + 1, second := 0)
    else if t.hour < 23 then t.(hour := t.hour + 1, minute := 0, second := 0)
    else NextDay(t).(hour := 0, minute := 0, second := 0)
  }

  function NextDay(t: Utc): Utc {
    if t.day < DaysInMonth(t.year, t.month) then t.(day := t.day + 1)
    else if t.month < 12 then t.(month := t.month + 1, day := 1)
    else t.(year := t.year + 1, month := 1, day := 1)
  }

  lemma {:induction false} YearIsItsMonths(y: nat)
    requires y >= 1
    ensures DaysBeforeYear(y + 1) == DaysBeforeYear(y) + DaysBeforeMonth(y, 13)
  {
    var feb := DaysInMonth(y, 2);
    assert DaysBeforeMonth(y, 1) == 0 && DaysBeforeMonth(y, 2) == 31 && DaysBeforeMonth(y, 3) == 31 + feb;
    assert DaysBeforeMonth(y, 4) == 62 + feb;
    assert DaysBeforeMonth(y, 5) == 92 + feb;
    assert DaysBeforeMonth(y, 6) == 123 + feb;
    assert DaysBeforeMonth(y, 7) == 153 + feb;
    assert DaysBeforeMonth(y, 8) == 184 + feb;
    assert DaysBeforeMonth(y, 9) == 215 + feb;
    assert DaysBeforeMonth(y, 10) == 245 + feb;
    assert DaysBeforeMonth(y, 11) == 276 + feb;
    assert DaysBeforeMonth(y, 12) == 306 + feb;
    assert DaysBeforeMonth(y, 13) == 337 + feb;
  }

  lemma NextIsOneDay(t: Utc)
    requires Valid(t)
    ensures Day(NextDay(t)) == Day(t) + 1
    ensures t.year < 9999 ==> Valid(NextDay(t))
  {
    if t.day == DaysInMonth(t.year, t.month) && t.month == 12 {
      YearIsItsMonths(t.year);
    }
  }

  /** The instant counts seconds: the next valid time is one second on. */
  lemma NextIsOneSecond(t: Utc)
    requires Valid(t)
    ensures Instant(NextSecond(t)) == Instant(t) + 1
    ensures t.year < 9999 ==> Valid(NextSecond(t))
  {
    NextIsOneDay(t);
  }

  /** The Gregorian calendar: 400 years are 146097 days, the year 2000 was a leap year, 1900 was none, and
      the epoch of 1970 is where it should be. */
  lemma KnownDates(y: nat)
    ensures IsLeap(2000) && !IsLeap(1900) && IsLeap(2024) && !IsLeap(2023)
    ensures IsLeap(y + 400) <==> IsLeap(y)
    ensures DaysInMonth(2023, 2) == 28 && DaysInMonth(2024, 2) == 29
    ensures forall m :: m in {1, 3, 5, 7, 8, 10, 12} ==> DaysInMonth(y, m) == 31
    ensures forall m :: m in {4, 6, 9, 11} ==> DaysInMonth(y, m) == 30
  {
  }

  // ---- the string --------------------------------------------------------------------------

  function Digit(n: nat): char {
    '0' + (n % 10) as char
  }

  /** The last `width` decimal digits of `n`. */
  function Digits(n: nat, width: nat): (s: string)
    ensures |s| == width
  {
    if width == 0 then "" else Digits(n / 10, width - 1) + [Digit(n)]
  }

  function IsoFormat(t: Utc): string {
    Digits(t.year, 4) + ("-" + (Digits(t.month, 2) + ("-" + (Digits(t.day, 2) + ("T" + Clock(t))))))
  }

  function Clock(t: Utc): string {
    Digits(t.hour, 2) + (":" + (Digits(t.minute, 2) + (":" + (Digits(t.second, 2) + "+00:00"))))
  }

  function Pow10(width: nat): nat {
    if width == 0 then 1 else 10 * Pow10(width - 1)
  }

  /** The number a decimal numeral stands for. */
  function ValueOf(s: string): int {
    if s == "" then 0 else 10 * ValueOf(s[..|s| - 1]) + (s[|s| - 1] as int - '0' as int)
  }

  lemma {:induction false} NumeralReadsBack(n: nat, width: nat)
    requires n < Pow10(width)
    ensures ValueOf(Digits(n, width)) == n && forall c :: c in Digits(n, width) ==> '0' <= c <= '9'
  {
    if width > 0 {
      var front := Digits(n / 10, width - 1);
      NumeralReadsBack(n / 10, width - 1);
      assert (front + [Digit(n)])[..width - 1] == front;
    }
  }

  predicate ClockHolds(c: string, t: Utc) {
    && |c| == 14 && ValueOf(c[0..2]) == t.hour && c[2] == ':' && ValueOf(c[3..5]) == t.minute && c[5] == ':'
    && ValueOf(c[6..8]) == t.second && c[8..] == "+00:00"
  }

  /** A stamp holds its fields, four digits for the year and two for the others. */
  predicate StampHolds(s: string, t: Utc) {
    && |s| == 25 && ValueOf(s[0..4]) == t.year && s[4] == '-' && ValueOf(s[5..7]) == t.month && s[7] == '-'
    && ValueOf(s[8..10]) == t.day && s[10] == 'T' && ClockHolds(s[11..], t)
  }

  lemma ClockReadsBack(t: Utc)
    requires Valid(t)
    ensures ClockHolds(Clock(t), t)
  {
    var h, m, n := Digits(t.hour, 2), Digits(t.minute, 2), Digits(t.second, 2);
    var c := Clock(t);
    assert Pow10(2) == 100;
    NumeralReadsBack(t.hour, 2);
    NumeralReadsBack(t.minute, 2);
    NumeralReadsBack(t.second, 2);
    assert c[0..2] == h && c[3..5] == m && c[6..8] == n;
  }

  /** Where the fields of a stamp are. */
  lemma FieldsAt(y: string, m: string, d: string, clock: string, s: string)
    requires |y| == 4 && |m| == |d| == 2 && s == y + ("-" + (m + ("-" + (d + ("T" + clock)))))
    ensures |s| == 11 + |clock| && s[0..4] == y && s[4] == '-' && s[5..7] == m && s[7] == '-' && s[8..10] == d
    ensures s[10] == 'T' && s[11..] == clock
  {
  }

  lemma StampReadsBack(t: Utc)
    requires Valid(t)
    ensures StampHolds(IsoFormat(t), t)
  {
    assert Pow10(4) == 10000 && Pow10(2) == 100;
    NumeralReadsBack(t.year, 4);
    NumeralReadsBack(t.month, 2);
    NumeralReadsBack(t.day, 2);
    ClockReadsBack(t);
    FieldsAt(Digits(t.year, 4), Digits(t.month, 2), Digits(t.day, 2), Clock(t), IsoFormat(t));
  }

  /** String order, as Python and the database compare text. */
  predicate Before(s: string, t: string) {
    t != "" && (s == "" || s[0] < t[0] || (s[0] == t[0] && Before(s[1..], t[1..])))
  }

  // ---- strings compare field by field ----------------------------------------------------------

  lemma {:induction false} CommonPrefix(p: string, s: string, t: string)
    ensures Before(p + s, p + t) <==> Before(s, t)
  {
    if p == "" {
      assert p + s == s && p + t == t;
    } else {
      assert (p + s)[1..] == p[1..] + s && (p + t)[1..] == p[1..] + t;
      CommonPrefix(p[1..], s, t);
    }
  }

  lemma {:induction false} EarlierPrefix(p: string, q: string, s: string, t: string)
    requires |p| == |q| && p != q
    ensures Before(p + s, q + t) <==> Before(p, q)
  {
    assert (p + s)[1..] == p[1..] + s && (q + t)[1..] == q[1..] + t;
    if p[0] == q[0] {
      assert p == [p[0]] + p[1..] && q == [q[0]] + q[1..];
      EarlierPrefix(p[1..], q[1..], s, t);
    }
  }

  /** Numerals of one width compare as the numbers they stand for. */
  lemma {:induction false} NumeralOrder(a: nat, b: nat, width: nat)
    requires a < Pow10(width) && b < Pow10(width)
    ensures Digits(a, width) == Digits(b, width) <==> a == b
    ensures Before(Digits(a, width), Digits(b, width)) <==> a < b
  {
    if width > 0 {
      var p, q := Digits(a / 10, width - 1), Digits(b / 10, width - 1);
      NumeralOrder(a / 10, b / 10, width - 1);
      assert Digits(a, width) == p + [Digit(a)] && Digits(b, width) == q + [Digit(b)];
      assert Digits(a, width)[..width - 1] == p && Digits(b, width)[..width - 1] == q;
      if a / 10 == b / 10 {
        CommonPrefix(p, [Digit(a)], [Digit(b)]);
        assert Digits(a, width)[width - 1] == Digit(a) && Digits(b, width)[width - 1] == Digit(b);
      } else {
        EarlierPrefix(p, q, [Digit(a)], [Digit(b)]);
      }
    }
  }

  lemma FieldOrder(a: nat, b: nat, width: nat, s: string, t: string)
    requires a < Pow10(width) && b < Pow10(width)
    ensures Before(Digits(a, width) + s, Digits(b, width) + t) <==> a < b || (a == b && Before(s, t))
  {
    NumeralOrder(a, b, width);
    if a == b {
      CommonPrefix(Digits(a, width), s, t);
    } else {
      EarlierPrefix(Digits(a, width), Digits(b, width), s, t);
    }
  }

  lemma Separator(sep: char, s: string, t: string)
    ensures Before([sep] + s, [sep] + t) <==> Before(s, t)
  {
    CommonPrefix([sep], s, t);
  }

  predicate ClockBefore(a: Utc, b: Utc) {
    a.hour < b.hour || (a.hour == b.hour && (a.minute < b.minute || (a.minute == b.minute && a.second < b.second)))
  }

  predicate FieldsBefore(a: Utc, b: Utc) {
    || a.year < b.year
    || (a.year == b.year && (a.month < b.month || (a.month == b.month &&
        (a.day < b.day || (a.day == b.day && ClockBefore(a, b))))))
  }

  lemma ClockOrder(a: Utc, b: Utc)
    requires Valid(a) && Valid(b)
    ensures Before(Clock(a), Clock(b)) <==> ClockBefore(a, b)
  {
    assert Pow10(2) == 100;
    var a1, b1 := Digits(a.second, 2) + "+00:00", Digits(b.second, 2) + "+00:00";
    FieldOrder(a.second, b.second, 2, "+00:00", "+00:00");
    CommonPrefix("+00:00", "", "");
    assert "+00:00" + "" == "+00:00";
    Separator(':', a1, b1);
    var a2, b2 := Digits(a.minute, 2) + (":" + a1), Digits(b.minute, 2) + (":" + b1);
    FieldOrder(a.minute, b.minute, 2, ":" + a1, ":" + b1);
    Separator(':', a2, b2);
    FieldOrder(a.hour, b.hour, 2, ":" + a2, ":" + b2);
  }

  lemma StringOrder(a: Utc, b: Utc)
    requires Valid(a) && Valid(b)
    ensures Before(IsoFormat(a), IsoFormat(b)) <==> FieldsBefore(a, b)
  {
    assert Pow10(2) == 100;
    assert Pow10(4) == 10000 by {
      assert Pow10(3) == 1000;
    }
    ClockOrder(a, b);
    Separator('T', Clock(a), Clock(b));
    var a1, b1 := Digits(a.day, 2) + ("T" + Clock(a)), Digits(b.day, 2) + ("T" + Clock(b));
    FieldOrder(a.day, b.day, 2, "T" + Clock(a), "T" + Clock(b));
    Separator('-', a1, b1);
    var a2, b2 := Digits(a.month, 2) + ("-" + a1), Digits(b.month, 2) + ("-" + b1);
    FieldOrder(a.month, b.month, 2, "-" + a1, "-" + b1);
    Separator('-', a2, b2);
    FieldOrder(a.year, b.year, 4, "-" + a2, "-" + b2);
  }

  // ---- fields compare as instants ---------------------------------------------------------------

  lemma {:induction false} MonthsGrow(y: nat, m: nat, n: nat)
    requires 1 <= m < n
    ensures DaysBeforeMonth(y, m) + DaysInMonth(y, m) <= DaysBeforeMonth(y, n)
    decreases n
  {
    if m < n - 1 {
      MonthsGrow(y, m, n - 1);
    }
  }

  lemma YearLength(y: nat)
    ensures DaysBeforeMonth(y, 12) + DaysInMonth(y, 12) == if IsLeap(y) then 366 else 365
  {
    assert DaysBeforeMonth(y, 2) == DaysInMonth(y, 1);
    assert DaysBeforeMonth(y, 4) == DaysInMonth(y, 1) + DaysInMonth(y, 2) + DaysInMonth(y, 3);
    assert DaysBeforeMonth(y, 8) == DaysBeforeMonth(y, 4) + 30 + 31 + 30 + 31 by {
      assert DaysBeforeMonth(y, 6) == DaysBeforeMonth(y, 4) + 30 + 31;
    }
    assert DaysBeforeMonth(y, 12) == DaysBeforeMonth(y, 8) + 31 + 30 + 31 + 30 by {
      assert DaysBeforeMonth(y, 10) == DaysBeforeMonth(y, 8) + 31 + 30;
    }
  }

  lemma {:induction false} YearsGrow(y: nat, z: nat)
    requires 1 <= y < z
    ensures DaysBeforeYear(y) + (if IsLeap(y) then 366 else 365) <= DaysBeforeYear(z)
    decreases z
  {
    if y < z - 1 {
      YearsGrow(y, z - 1);
    }
  }

  lemma DayWithinYear(t: Utc)
    requires Valid(t)
    ensures DaysBeforeYear(t.year) <= Day(t) < DaysBeforeYear(t.year) + if IsLeap(t.year) then 366 else 365
  {
    YearLength(t.year);
    if t.month < 12 {
      MonthsGrow(t.year, t.month, 12);
    }
  }

  lemma EarlierFieldsEarlierInstant(a: Utc, b: Utc)
    requires Valid(a) && Valid(b) && FieldsBefore(a, b)
    ensures Instant(a) < Instant(b)
  {
    if a.year < b.year {
      DayWithinYear(a);
      DayWithinYear(b);
      YearsGrow(a.year, b.year);
    } else if a.month < b.month {
      MonthsGrow(a.year, a.month, b.month);
    }
    assert Day(a) <= Day(b);
  }

  lemma {:induction false} NeverBeforeItself(s: string)
    ensures !Before(s, s)
  {
    if s != "" {
      NeverBeforeItself(s[1..]);
    }
  }

  /** Comparing two time stamps as strings compares the instants, leap years included. */
  lemma StringOrderIsChronological(a: Utc, b: Utc)
    requires Valid(a) && Valid(b)
    ensures Before(IsoFormat(a), IsoFormat(b)) <==> Instant(a) < Instant(b)
    ensures IsoFormat(a) == IsoFormat(b) <==> Instant(a) == Instant(b)
  {
    StringOrder(a, b);
    StringOrder(b, a);
    NeverBeforeItself(IsoFormat(a));
    if FieldsBefore(a, b) {
      EarlierFieldsEarlierInstant(a, b);
    } else if FieldsBefore(b, a) {
      EarlierFieldsEarlierInstant(b, a);
    } else {
      assert a == b;
    }
  }

  /** The string tests of the queue and the sessions are the second counts of the model: a claim is
      older than the cutoff stamp exactly when it is more than `timeout` seconds old, a heartbeat is at
      or behind its cutoff exactly when it is at most `timeout` seconds old, and a session's expiry
      stamp is at or before the current one exactly when the session has run out. */
  lemma CutoffTests(stamp: Utc, cutoff: Utc, now: Utc, timeout: nat)
    requires Valid(stamp) && Valid(cutoff) && Valid(now) && Instant(cutoff) == Instant(now) - timeout
    ensures Before(IsoFormat(stamp), IsoFormat(cutoff)) <==> Instant(now) - Instant(stamp) > timeout
    ensures !Before(IsoFormat(stamp), IsoFormat(cutoff)) <==> Instant(now) - Instant(stamp) <= timeout
    ensures Before(IsoFormat(stamp), IsoFormat(now)) || IsoFormat(stamp) == IsoFormat(now)
            <==> Instant(stamp) <= Instant(now)
  {
    StringOrderIsChronological(stamp, cutoff);
    StringOrderIsChronological(stamp, now);
  }
}
