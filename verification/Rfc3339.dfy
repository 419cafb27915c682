/** Timestamps: Go's RFC3339Nano printer (UTC) against `rfc3339_ns` of
    scripts/trial_record.py (section 5.6 of RFC 3339).

    The printer walks the Gregorian calendar one year and one month at a time.
    The reader uses the closed day-count formula behind Python's calendar.timegm.
    The two definitions share nothing but the leap-year rule. */
module Rfc3339 {
  import opened Text

  const NS_PER_SECOND := 1_000_000_000
  const NS_PER_DAY := 86_400 * NS_PER_SECOND
  /** Days from 0001-01-01 to 1970-01-01. */
  const EPOCH_DAY := 719_162

  datatype Civil = Civil(year: nat, month: nat, day: nat, hour: nat, minute: nat, second: nat, nano: nat)

  /** Outcome of `rfc3339_ns`: no match, an exception out of datetime.date, or an instant. */
  datatype Stamp = NoStamp | Raises | At(ns: int)

  predicate Leap(y: nat) {
    y % 4 == 0 && (y % 100 != 0 || y % 400 == 0)
  }

  function YearDays(y: nat): (n: nat)
    ensures n > 0
  {
    if Leap(y) then 366 else 365
  }

  function MonthDays(y: nat, m: nat): (n: nat)
    requires 1 <= m <= 12
    ensures 28 <= n <= 31
  {
    if m == 2 then (if Leap(y) then 29 else 28)
    else if m == 4 || m == 6 || m == 9 || m == 11 then 30
    else 31
  }

  /** Year and day of that year, counting from day 0 of year `y`. */
  function WalkYears(day: nat, y: nat): (r: (nat, nat))
    decreases day
  {
    if day < YearDays(y) then (y, day) else WalkYears(day - YearDays(y), y + 1)
  }

  /** Month and day of that month, counting from day 0 of month `m`. */
  function WalkMonths(day: nat, y: nat, m: nat): (r: (nat, nat))
    requires 1 <= m <= 12
    decreases 12 - m
  {
    if m == 12 || day < MonthDays(y, m) then (m, day) else WalkMonths(day - MonthDays(y, m), y, m + 1)
  }

  /** Days since 0001-01-01 of the instant `ns`. */
  function DayOf(ns: int): int {
    ns / NS_PER_DAY + EPOCH_DAY
  }

  /** Instants the reader can express: years 1 to 9999. */
  predicate InRange(ns: int) {
    0 <= DayOf(ns) && WalkYears(DayOf(ns), 1).0 <= 9999
  }

  function CivilOf(ns: int): Civil
    requires InRange(ns)
  {
    var y := WalkYears(DayOf(ns), 1);
    var m := WalkMonths(y.1, y.0, 1);
    var t := ns % NS_PER_DAY;
    var s := t / NS_PER_SECOND;
    Civil(y.0, m.0, m.1 + 1, s / 3600, s / 60 % 60, s % 60, t % NS_PER_SECOND)
  }

  function StripZeros(s: string): (r: string)
    ensures |r| <= |s|
  {
    if s != "" && s[|s| - 1] == '0' then StripZeros(s[..|s| - 1]) else s
  }

  function Zeros(n: nat): (s: string)
    ensures |s| == n && AllDigits(s)
  {
    seq(n, _ => '0')
  }

  function FracText(nano: nat): string {
    if nano == 0 then "" else "." + StripZeros(Pad(nano, 9))
  }

  function SecondText(c: Civil): (s: string)
    ensures |s| == 19
  {
    Pad(c.year, 4) + "-" + Pad(c.month, 2) + "-" + Pad(c.day, 2) + "T" +
    Pad(c.hour, 2) + ":" + Pad(c.minute, 2) + ":" + Pad(c.second, 2)
  }

  /** time.Time.UTC().Format(time.RFC3339Nano). */
  function Format(ns: int): string
    requires InRange(ns)
  {
    SecondText(CivilOf(ns)) + FracText(CivilOf(ns).nano) + "Z"
  }

  // ---- the reader -------------------------------------------------------

  function DaysBeforeYear(y: nat): int {
    (y - 1) * 365 + (y - 1) / 4 - (y - 1) / 100 + (y - 1) / 400
  }

  function DaysBeforeMonth(y: nat, m: nat): int
    requires 1 <= m <= 12
  {
    [0, 31, 59, 90, 120, 151, 181, 212, 243, 273, 304, 334][m - 1] + if m > 2 && Leap(y) then 1 else 0
  }

  /** calendar.timegm: only year and month are validated. */
  function TimeGm(y: nat, mo: nat, d: nat, h: nat, mi: nat, s: nat): int
    requires 1 <= mo <= 12
  {
    var days := DaysBeforeYear(y) + DaysBeforeMonth(y, mo) - EPOCH_DAY + d - 1;
    ((days * 24 + h) * 60 + mi) * 60 + s
  }

  predicate SecondShape(s: string)
    requires |s| == 19
  {
    && AllDigits(s[0..4]) && s[4] == '-' && AllDigits(s[5..7]) && s[7] == '-' && AllDigits(s[8..10]) && s[10] == 'T'
    && AllDigits(s[11..13]) && s[13] == ':' && AllDigits(s[14..16]) && s[16] == ':' && AllDigits(s[17..19])
  }

  /** The fraction's digits, when what follows the seconds matches `(?:\.(\d{1,9}))?Z`. */
  predicate TailShape(s: string) {
    || s == "Z"
    || (3 <= |s| <= 11 && s[0] == '.' && s[|s| - 1] == 'Z' && AllDigits(s[1..|s| - 1]))
  }

  function TailNanos(s: string): nat
    requires TailShape(s)
  {
    if s == "Z" then 0 else Value(s[1..|s| - 1] + Zeros(11 - |s|))
  }

  function SecondsOf(s: string): Stamp
    requires |s| == 19 && SecondShape(s)
  {
    var y, mo := Value(s[0..4]), Value(s[5..7]);
    if y < 1 || !(1 <= mo <= 12) then Raises
    else At(TimeGm(y, mo, Value(s[8..10]), Value(s[11..13]), Value(s[14..16]), Value(s[17..19])))
  }

  /** `rfc3339_ns`. The pattern's `$` also accepts one trailing newline. */
  function Rfc3339Ns(stamp: string): Stamp {
    var s := if stamp != "" && stamp[|stamp| - 1] == '\n' then stamp[..|stamp| - 1] else stamp;
    if |s| < 20 || !SecondShape(s[..19]) || !TailShape(s[19..]) then NoStamp
    else match SecondsOf(s[..19])
      case At(secs) => At(secs * NS_PER_SECOND + TailNanos(s[19..]))
      case other => other
  }

  // ---- proofs -----------------------------------------------------------

  lemma NextQuotient(n: int, k: int)
    requires k == 4 || k == 100 || k == 400
    ensures (n + 1) / k == n / k + if (n + 1) % k == 0 then 1 else 0
  {}

  lemma NextYear(y: nat)
    requires y >= 1
    ensures DaysBeforeYear(y + 1) == DaysBeforeYear(y) + YearDays(y)
  {
    NextQuotient(y - 1, 4);
    NextQuotient(y - 1, 100);
    NextQuotient(y - 1, 400);
  }

  /** Walking years one by one agrees with the closed formula. */
  lemma {:induction false} WalkYearsCounts(day: nat, y: nat)
    requires y >= 1
    ensures var r := WalkYears(day, y);
            r.0 >= y && r.1 < YearDays(r.0) && DaysBeforeYear(r.0) + r.1 == DaysBeforeYear(y) + day
    decreases day
  {
    if day < YearDays(y) {
    } else {
      NextYear(y);
      WalkYearsCounts(day - YearDays(y), y + 1);
    }
  }

  lemma {:induction false} WalkMonthsCounts(day: nat, y: nat, m: nat)
    requires 1 <= m <= 12
    requires DaysBeforeMonth(y, m) + day < YearDays(y)
    ensures var r := WalkMonths(day, y, m);
            m <= r.0 <= 12 && r.1 < MonthDays(y, r.0) && DaysBeforeMonth(y, r.0) + r.1 == DaysBeforeMonth(y, m) + day
    decreases 12 - m
  {
    if m == 12 || day < MonthDays(y, m) {
    } else {
      WalkMonthsCounts(day - MonthDays(y, m), y, m + 1);
    }
  }

  lemma CivilOfIsInstant(ns: int)
    requires InRange(ns)
    ensures var c := CivilOf(ns);
            && 1 <= c.year <= 9999 && 1 <= c.month <= 12 && 1 <= c.day <= 31
            && c.hour < 24 && c.minute < 60 && c.second < 60 && c.nano < NS_PER_SECOND
            && TimeGm(c.year, c.month, c.day, c.hour, c.minute, c.second) * NS_PER_SECOND + c.nano == ns
  {
    WalkIsDate(DayOf(ns));
    TimeOfDay(ns % NS_PER_DAY);
    assert ns == (ns / NS_PER_DAY) * NS_PER_DAY + ns % NS_PER_DAY;
  }

  /** The calendar date that the walk reaches. */
  lemma WalkIsDate(day: nat)
    ensures var y := WalkYears(day, 1);
            var m := WalkMonths(y.1, y.0, 1);
            && y.0 >= 1 && 1 <= m.0 <= 12 && m.1 + 1 <= 31
            && DaysBeforeYear(y.0) + DaysBeforeMonth(y.0, m.0) + m.1 == day
  {
    WalkYearsCounts(day, 1);
    var y := WalkYears(day, 1);
    WalkMonthsCounts(y.1, y.0, 1);
  }

  lemma TimeOfDay(t: nat)
    requires t < NS_PER_DAY
    ensures var s := t / NS_PER_SECOND;
            && s < 86_400 && s / 3600 < 24
            && t == ((s / 3600 * 60 + s / 60 % 60) * 60 + s % 60) * NS_PER_SECOND + t % NS_PER_SECOND
  {
    var s := t / NS_PER_SECOND;
    assert t == s * NS_PER_SECOND + t % NS_PER_SECOND;
    HourMinuteSecond(s);
  }

  lemma HourMinuteSecond(s: nat)
    ensures s == (s / 3600 * 60 + s / 60 % 60) * 60 + s % 60
  {}

  lemma {:induction false} StripZerosRestores(s: string)
    requires AllDigits(s)
    ensures AllDigits(StripZeros(s)) && StripZeros(s) + Zeros(|s| - |StripZeros(s)|) == s
  {
    if s == "" || s[|s| - 1] != '0' {
    } else {
      var init := s[..|s| - 1];
      StripZerosRestores(init);
      assert Zeros(|s| - |StripZeros(s)|) == Zeros(|init| - |StripZeros(init)|) + "0";
      assert s == init + "0";
    }
  }

  lemma {:induction false} AllZerosValue(s: string)
    requires AllDigits(s) && StripZeros(s) == ""
    ensures Value(s) == 0
  {
    if s == "" {
    } else {
      AllZerosValue(s[..|s| - 1]);
    }
  }

  lemma TailRoundTrip(nano: nat)
    requires nano < NS_PER_SECOND
    ensures TailShape(FracText(nano) + "Z") && TailNanos(FracText(nano) + "Z") == nano
  {
    assert Pow10(9) == NS_PER_SECOND;
    PadValue(nano, 9);
    if nano != 0 {
      var p := Pad(nano, 9);
      StripZerosRestores(p);
      if StripZeros(p) == "" {
        AllZerosValue(p);
      }
      var s := FracText(nano) + "Z";
      assert s[1..|s| - 1] == StripZeros(p);
    }
  }

  lemma SecondRoundTrip(c: Civil)
    requires 1 <= c.year <= 9999 && 1 <= c.month <= 12 && c.day <= 99
    requires c.hour <= 99 && c.minute <= 99 && c.second <= 99
    ensures SecondShape(SecondText(c))
    ensures SecondsOf(SecondText(c)) == At(TimeGm(c.year, c.month, c.day, c.hour, c.minute, c.second))
  {
    var s := SecondText(c);
    assert s[0..4] == Pad(c.year, 4);
    assert s[5..7] == Pad(c.month, 2);
    assert s[8..10] == Pad(c.day, 2);
    assert s[11..13] == Pad(c.hour, 2);
    assert s[14..16] == Pad(c.minute, 2);
    assert s[17..19] == Pad(c.second, 2);
    assert Pow10(2) == 100 && Pow10(4) == 10_000;
    PadValue(c.year, 4);
    PadValue(c.month, 2);
    PadValue(c.day, 2);
    PadValue(c.hour, 2);
    PadValue(c.minute, 2);
    PadValue(c.second, 2);
  }

  /** Reading a printed stamp gives back the exact nanosecond, for every instant of years 1 to 9999. */
  lemma FormatRoundTrip(ns: int)
    requires InRange(ns)
    ensures Rfc3339Ns(Format(ns)) == At(ns)
  {
    CivilOfIsInstant(ns);
    CivilRoundTrip(CivilOf(ns));
  }

  lemma CivilRoundTrip(c: Civil)
    requires 1 <= c.year <= 9999 && 1 <= c.month <= 12 && c.day <= 99
    requires c.hour <= 99 && c.minute <= 99 && c.second <= 99 && c.nano < NS_PER_SECOND
    ensures Rfc3339Ns(SecondText(c) + FracText(c.nano) + "Z")
         == At(TimeGm(c.year, c.month, c.day, c.hour, c.minute, c.second) * NS_PER_SECOND + c.nano)
  {
    SecondRoundTrip(c);
    TailRoundTrip(c.nano);
    Assemble(SecondText(c), FracText(c.nano), c.nano, TimeGm(c.year, c.month, c.day, c.hour, c.minute, c.second));
  }

  lemma Assemble(sec: string, frac: string, nano: nat, secs: int)
    requires |sec| == 19 && SecondShape(sec) && SecondsOf(sec) == At(secs)
    requires TailShape(frac + "Z") && TailNanos(frac + "Z") == nano
    ensures Rfc3339Ns(sec + frac + "Z") == At(secs * NS_PER_SECOND + nano)
  {
    assert sec + frac + "Z" == sec + (frac + "Z");
    ReadParts(sec, frac + "Z", secs);
  }

  lemma ReadParts(sec: string, tail: string, secs: int)
    requires |sec| == 19 && SecondShape(sec) && SecondsOf(sec) == At(secs)
    requires TailShape(tail) && tail != "" && tail[|tail| - 1] == 'Z'
    ensures Rfc3339Ns(sec + tail) == At(secs * NS_PER_SECOND + TailNanos(tail))
  {
    var s := sec + tail;
    assert s[..19] == sec && s[19..] == tail && s[|s| - 1] == tail[|tail| - 1];
  }

  /** Every int64 nanosecond count, which is all UnixNano can return, is such an instant. */
  lemma UnixNanoInRange(ns: int)
    requires -0x8000_0000_0000_0000 <= ns < 0x8000_0000_0000_0000
    ensures InRange(ns)
  {
    var day := DayOf(ns);
    assert 0 <= day < 830_000;
    WalkYearsCounts(day, 1);
    var y := WalkYears(day, 1).0;
    assert DaysBeforeYear(y) >= 365 * (y - 1);
  }
}
