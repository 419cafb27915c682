/** What stamps mean: the reader against the calendar and the clock, from the epoch on, with month lengths and
    units spelled out; and the printer against the reader. Nothing here is stated through the reader's own
    day counting. */
module Calendar {
  import opened Text
  import opened Rfc3339

  /** The length of a month in the Gregorian calendar. */
  function LastDay(y: nat, m: nat): nat {
    if m == 2 then (if y % 4 == 0 && (y % 100 != 0 || y % 400 == 0) then 29 else 28)
    else if m in {4, 6, 9, 11} then 30 else 31
  }

  /** A date that exists. */
  predicate Date(y: nat, m: nat, d: nat) {
    1 <= y <= 9999 && 1 <= m <= 12 && 1 <= d <= LastDay(y, m)
  }

  /** The second date is the day after the first. */
  predicate DayAfter(y: nat, m: nat, d: nat, y2: nat, m2: nat, d2: nat) {
    if d < LastDay(y, m) then y2 == y && m2 == m && d2 == d + 1
    else if m < 12 then y2 == y && m2 == m + 1 && d2 == 1
    else y2 == y + 1 && m2 == 1 && d2 == 1
  }

  function DateText(y: nat, m: nat, d: nat): string {
    Pad(y, 4) + "-" + Pad(m, 2) + "-" + Pad(d, 2)
  }

  function TimeText(h: nat, mi: nat, s: nat): string {
    Pad(h, 2) + ":" + Pad(mi, 2) + ":" + Pad(s, 2)
  }

  /** The end of a stamp, with its fraction digits if any. */
  function EndText(digits: string): string {
    if digits == "" then "Z" else "." + digits + "Z"
  }

  function StampText(y: nat, m: nat, d: nat, h: nat, mi: nat, s: nat, digits: string): string {
    DateText(y, m, d) + "T" + TimeText(h, mi, s) + EndText(digits)
  }

  /** The days of all months before month `m` of year `y`, from year 1 on. */
  function Days(y: nat, m: nat): (n: nat)
    requires 1 <= y && 1 <= m <= 12
    decreases y, m
  {
    if m > 1 then Days(y, m - 1) + LastDay(y, m - 1) else if y > 1 then Days(y - 1, 12) + 31 else 0
  }

  /** Nanoseconds from the start of 1970. The day may lie beyond the month's end, as timegm allows. */
  function Instant(y: nat, m: nat, d: nat, h: nat, mi: nat, s: nat, digits: string): int
    requires 1 <= y && 1 <= m <= 12 && |digits| <= 9 && AllDigits(digits)
  {
    var days := Days(y, m) - Days(1970, 1) + d - 1;
    (days * 86_400 + h * 3600 + mi * 60 + s) * 1_000_000_000 + Value(digits) * Pow10(9 - |digits|)
  }

  // ---- fractions --------------------------------------------------------

  lemma {:induction false} ValueZeros(f: string, k: nat)
    requires AllDigits(f)
    ensures AllDigits(f + Zeros(k)) && Value(f + Zeros(k)) == Value(f) * Pow10(k)
  {
    if k == 0 {
      assert f + Zeros(0) == f;
    } else {
      ValueZeros(f, k - 1);
      assert f + Zeros(k) == f + Zeros(k - 1) + "0";
      assert (f + Zeros(k))[..|f| + k - 1] == f + Zeros(k - 1);
      TimesTen(Value(f), Pow10(k - 1));
    }
  }

  lemma TimesTen(a: nat, b: nat)
    ensures 10 * (a * b) == a * (10 * b)
  {}

  /** Up to nine digits are tenths, hundredths, and so on of a second. */
  lemma FractionNanos(digits: string) returns (n: nat)
    requires |digits| <= 9 && AllDigits(digits)
    ensures TailShape(EndText(digits)) && n == TailNanos(EndText(digits))
    ensures n == Value(digits) * Pow10(9 - |digits|)
  {
    n := if digits == "" then 0 else Value(digits + Zeros(9 - |digits|));
    if digits == "" {
      assert Value("") == 0;
    } else {
      ValueZeros(digits, 9 - |digits|);
      assert EndText(digits)[1..|EndText(digits)| - 1] == digits;
    }
  }

  // ---- the reader -------------------------------------------------------

  lemma Regroup(y: string, m: string, d: string, h: string, mi: string, s: string, end: string)
    ensures y + "-" + m + "-" + d + "T" + (h + ":" + mi + ":" + s) + end
         == (y + "-" + m + "-" + d + "T" + h + ":" + mi + ":" + s) + end
  {}

  lemma StampIs(y: nat, m: nat, d: nat, h: nat, mi: nat, s: nat, digits: string)
    ensures StampText(y, m, d, h, mi, s, digits) == SecondText(Civil(y, m, d, h, mi, s, 0)) + EndText(digits)
  {
    Regroup(Pad(y, 4), Pad(m, 2), Pad(d, 2), Pad(h, 2), Pad(mi, 2), Pad(s, 2), EndText(digits));
  }

  lemma {:induction false} DaysCounted(y: nat, m: nat)
    requires 1 <= y && 1 <= m <= 12
    ensures Days(y, m) == DaysBeforeYear(y) + DaysBeforeMonth(y, m)
    decreases y, m
  {
    if m > 1 {
      DaysCounted(y, m - 1);
    } else if y > 1 {
      DaysCounted(y - 1, 12);
      NextYear(y - 1);
    } else {
    }
  }

  lemma InstantIs(y: nat, m: nat, d: nat, h: nat, mi: nat, s: nat, digits: string)
    requires 1 <= y && 1 <= m <= 12 && |digits| <= 9 && AllDigits(digits)
    ensures Instant(y, m, d, h, mi, s, digits)
         == TimeGm(y, m, d, h, mi, s) * NS_PER_SECOND + Value(digits) * Pow10(9 - |digits|)
  {
    DaysCounted(y, m);
    DaysCounted(1970, 1);
  }

  /** A stamp reads as the days of the calendar, the time of day and the fraction make it. */
  lemma Reads(y: nat, m: nat, d: nat, h: nat, mi: nat, s: nat, digits: string)
    requires 1 <= y <= 9999 && 1 <= m <= 12 && d <= 99 && h <= 99 && mi <= 99 && s <= 99
    requires |digits| <= 9 && AllDigits(digits)
    ensures Rfc3339Ns(StampText(y, m, d, h, mi, s, digits)) == At(Instant(y, m, d, h, mi, s, digits))
  {
    var sec, secs := StampParts(y, m, d, h, mi, s, digits);
    var n := FractionNanos(digits);
    InstantIs(y, m, d, h, mi, s, digits);
    ReadParts(sec, EndText(digits), secs);
  }

  lemma StampParts(y: nat, m: nat, d: nat, h: nat, mi: nat, s: nat, digits: string) returns (sec: string, secs: int)
    requires 1 <= y <= 9999 && 1 <= m <= 12 && d <= 99 && h <= 99 && mi <= 99 && s <= 99
    ensures StampText(y, m, d, h, mi, s, digits) == sec + EndText(digits)
    ensures |sec| == 19 && SecondShape(sec) && SecondsOf(sec) == At(secs) && secs == TimeGm(y, m, d, h, mi, s)
  {
    var c := Civil(y, m, d, h, mi, s, 0);
    sec, secs := SecondText(c), TimeGm(y, m, d, h, mi, s);
    SecondRoundTrip(c);
    StampIs(y, m, d, h, mi, s, digits);
  }

  /** Stamps count from the start of 1970. */
  lemma Epoch()
    ensures Rfc3339Ns("1970-01-01T00:00:00Z") == At(0)
  {
    Reads(1970, 1, 1, 0, 0, 0, "");
    EpochText();
    assert Value("") == 0;
  }

  lemma EpochText()
    ensures "1970-01-01T00:00:00Z" == StampText(1970, 1, 1, 0, 0, 0, "")
  {
    Spelled();
  }

  lemma Spelled()
    ensures Pad(1970, 4) == "1970" && Pad(1, 2) == "01" && Pad(0, 2) == "00"
  {
    assert Pad(1, 1) == "1" && Pad(19, 2) == "19" && Pad(197, 3) == "197";
    assert Pad(0, 1) == "0";
  }

  /** One calendar day later is 86400 seconds later: at month ends, on 29 February, and at the turn of a year. */
  lemma NextDay(y: nat, m: nat, d: nat, y2: nat, m2: nat, d2: nat, h: nat, mi: nat, s: nat, digits: string)
    requires Date(y, m, d) && DayAfter(y, m, d, y2, m2, d2) && |digits| <= 9 && AllDigits(digits)
    ensures 1 <= m2 <= 12
    ensures Instant(y2, m2, d2, h, mi, s, digits) == Instant(y, m, d, h, mi, s, digits) + 86_400 * 1_000_000_000
  {
    assert Days(y2, m2) + d2 == Days(y, m) + d + 1;
  }

  /** The pieces of a stamp. */
  predicate Pieces(t: string, y: string, m: string, d: string, h: string, mi: string, s: string, digits: string) {
    && |y| == 4 && |m| == |d| == |h| == |mi| == |s| == 2 && |digits| <= 9
    && AllDigits(y) && AllDigits(m) && AllDigits(d) && AllDigits(h) && AllDigits(mi) && AllDigits(s)
    && AllDigits(digits)
    && t == y + "-" + m + "-" + d + "T" + h + ":" + mi + ":" + s + EndText(digits)
  }

  /** The text without the one newline that `$` tolerates. */
  function Chomped(t: string): string {
    if t != "" && t[|t| - 1] == '\n' then t[..|t| - 1] else t
  }

  /** Whatever is read at all has that shape. */
  lemma ReadsOnlyPieces(t: string)
    returns (y: string, m: string, d: string, h: string, mi: string, s: string, digits: string)
    requires Rfc3339Ns(t) != NoStamp
    ensures Pieces(Chomped(t), y, m, d, h, mi, s, digits)
    ensures Rfc3339Ns(t).Raises? <==> Value(y) == 0 || Value(m) == 0 || Value(m) > 12
  {
    var u := Chomped(t);
    var sec, end := u[..19], u[19..];
    y, m, d, h, mi, s := sec[0..4], sec[5..7], sec[8..10], sec[11..13], sec[14..16], sec[17..19];
    digits := EndDigits(end);
    SecondJoins(sec, y, m, d, h, mi, s);
    assert u == sec + end;
  }

  lemma EndDigits(end: string) returns (digits: string)
    requires TailShape(end)
    ensures |digits| <= 9 && AllDigits(digits) && end == EndText(digits)
  {
    if end == "Z" {
      digits := "";
    } else {
      digits := end[1..|end| - 1];
      assert end == [end[0]] + digits + [end[|end| - 1]];
    }
  }

  lemma SecondJoins(sec: string, y: string, m: string, d: string, h: string, mi: string, s: string)
    requires |sec| == 19 && SecondShape(sec)
    requires y == sec[0..4] && m == sec[5..7] && d == sec[8..10]
    requires h == sec[11..13] && mi == sec[14..16] && s == sec[17..19]
    ensures sec == y + "-" + m + "-" + d + "T" + h + ":" + mi + ":" + s
  {}

  /** And everything of that shape is read, or raises. */
  lemma PiecesAreRead(t: string, y: string, m: string, d: string, h: string, mi: string, s: string, digits: string)
    requires Pieces(t, y, m, d, h, mi, s, digits)
    ensures Rfc3339Ns(t) != NoStamp
    ensures Rfc3339Ns(t).Raises? <==> Value(y) == 0 || Value(m) == 0 || Value(m) > 12
  {
    var sec := y + "-" + m + "-" + d + "T" + h + ":" + mi + ":" + s;
    SecondPieces(sec, y, m, d, h, mi, s);
    var n := FractionNanos(digits);
    assert t[..19] == sec && t[19..] == EndText(digits) && t[|t| - 1] == 'Z';
  }

  lemma SecondPieces(sec: string, y: string, m: string, d: string, h: string, mi: string, s: string)
    requires |y| == 4 && |m| == |d| == |h| == |mi| == |s| == 2
    requires AllDigits(y) && AllDigits(m) && AllDigits(d) && AllDigits(h) && AllDigits(mi) && AllDigits(s)
    requires sec == y + "-" + m + "-" + d + "T" + h + ":" + mi + ":" + s
    ensures |sec| == 19 && SecondShape(sec) && sec[0..4] == y && sec[5..7] == m
  {
    assert sec[0..4] == y && sec[5..7] == m && sec[8..10] == d;
    assert sec[11..13] == h && sec[14..16] == mi && sec[17..19] == s;
  }

  // ---- the printer ------------------------------------------------------

  /** The printed fraction ends in no zero. */
  lemma {:induction false} NoTrailingZero(s: string)
    ensures StripZeros(s) == "" || StripZeros(s)[|StripZeros(s)| - 1] != '0'
  {
    if s == "" || s[|s| - 1] != '0' {
    } else {
      NoTrailingZero(s[..|s| - 1]);
    }
  }

  lemma {:induction false} YearsApart(y: nat, z: nat)
    requires 1 <= y < z
    ensures DaysBeforeYear(y) + YearDays(y) <= DaysBeforeYear(z)
    decreases z
  {
    if z == y + 1 {
      NextYear(y);
    } else {
      YearsApart(y, z - 1);
      NextYear(z - 1);
    }
  }

  lemma YearIs(y: nat, a: nat, z: nat, b: nat)
    requires y >= 1 && z >= 1 && a < YearDays(y) && b < YearDays(z) && DaysBeforeYear(y) + a == DaysBeforeYear(z) + b
    ensures y == z && a == b
  {
    if y < z {
      YearsApart(y, z);
    } else if z < y {
      YearsApart(z, y);
    }
  }

  lemma MonthIs(y: nat, m: nat, a: nat, k: nat, b: nat)
    requires 1 <= m <= 12 && 1 <= k <= 12 && a < MonthDays(y, m) && b < MonthDays(y, k)
    requires DaysBeforeMonth(y, m) + a == DaysBeforeMonth(y, k) + b
    ensures m == k && a == b
  {}

  /** A date that exists is the one its day number walks to. */
  lemma WalksTo(y: nat, m: nat, d: nat)
    requires Date(y, m, d)
    ensures var day := DaysBeforeYear(y) + DaysBeforeMonth(y, m) + d - 1;
            && day >= 0 && WalkYears(day, 1).0 == y
            && WalkMonths(WalkYears(day, 1).1, y, 1) == (m, d - 1)
  {
    var k := DaysBeforeMonth(y, m) + d - 1;
    DateFits(y, m, d);
    assert DaysBeforeYear(y) >= 0;
    var day := DaysBeforeYear(y) + k;
    YearWalked(day, y, k);
    MonthWalked(y, m, d);
  }

  lemma YearWalked(day: nat, y: nat, k: nat)
    requires y >= 1 && k < YearDays(y) && day == DaysBeforeYear(y) + k
    ensures WalkYears(day, 1) == (y, k)
  {
    WalkYearsCounts(day, 1);
    var r := WalkYears(day, 1);
    YearIs(r.0, r.1, y, k);
  }

  lemma MonthWalked(y: nat, m: nat, d: nat)
    requires Date(y, m, d) && DaysBeforeMonth(y, m) + d - 1 < YearDays(y)
    ensures WalkMonths(DaysBeforeMonth(y, m) + d - 1, y, 1) == (m, d - 1)
  {
    var k := DaysBeforeMonth(y, m) + d - 1;
    DateFits(y, m, d);
    WalkMonthsCounts(k, y, 1);
    var q := WalkMonths(k, y, 1);
    MonthIs(y, q.0, q.1, m, d - 1);
  }

  lemma DateFits(y: nat, m: nat, d: nat)
    requires Date(y, m, d)
    ensures d <= MonthDays(y, m) && DaysBeforeMonth(y, m) + d - 1 < YearDays(y)
  {
  }

  lemma SplitTime(h: nat, mi: nat, s: nat, nano: nat)
    requires h < 24 && mi < 60 && s < 60 && nano < NS_PER_SECOND
    ensures var t := (h * 3600 + mi * 60 + s) * NS_PER_SECOND + nano;
            && t < NS_PER_DAY && t / NS_PER_SECOND == h * 3600 + mi * 60 + s && t % NS_PER_SECOND == nano
  {}

  lemma SplitSeconds(h: nat, mi: nat, s: nat)
    requires h < 24 && mi < 60 && s < 60
    ensures var t := h * 3600 + mi * 60 + s;
            t / 3600 == h && t / 60 % 60 == mi && t % 60 == s
  {
    assert (h * 3600 + mi * 60 + s) / 60 == h * 60 + mi;
  }

  lemma SplitDay(days: int, t: nat)
    requires t < NS_PER_DAY
    ensures (days * NS_PER_DAY + t) / NS_PER_DAY == days && (days * NS_PER_DAY + t) % NS_PER_DAY == t
  {}

  /** An instant the reader gives for a date and time that exist breaks down into them again. */
  lemma CivilIs(c: Civil)
    requires Date(c.year, c.month, c.day) && c.hour < 24 && c.minute < 60 && c.second < 60 && c.nano < NS_PER_SECOND
    ensures var ns := TimeGm(c.year, c.month, c.day, c.hour, c.minute, c.second) * NS_PER_SECOND + c.nano;
            InRange(ns) && CivilOf(ns) == c
  {
    var days := DaysBeforeYear(c.year) + DaysBeforeMonth(c.year, c.month) + c.day - 1;
    var t := (c.hour * 3600 + c.minute * 60 + c.second) * NS_PER_SECOND + c.nano;
    var ns := TimeGm(c.year, c.month, c.day, c.hour, c.minute, c.second) * NS_PER_SECOND + c.nano;
    WalksTo(c.year, c.month, c.day);
    SplitTime(c.hour, c.minute, c.second, c.nano);
    SplitSeconds(c.hour, c.minute, c.second);
    assert ns == (days - EPOCH_DAY) * NS_PER_DAY + t;
    SplitDay(days - EPOCH_DAY, t);
  }

  /** The printer inverts the reader: a stamp of a date and time that exist, whose fraction ends in no zero, is
      printed back exactly as it was read. */
  lemma PrintsBack(y: nat, m: nat, d: nat, h: nat, mi: nat, s: nat, nano: nat)
    requires Date(y, m, d) && h < 24 && mi < 60 && s < 60 && nano < 1_000_000_000
    ensures var digits := StripZeros(Pad(nano, 9));
            var text := StampText(y, m, d, h, mi, s, digits);
            && Rfc3339Ns(text).At? && InRange(Rfc3339Ns(text).ns) && Format(Rfc3339Ns(text).ns) == text
  {
    var c := Civil(y, m, d, h, mi, s, nano);
    CivilIs(c);
    var ns := PrintedAs(c);
    FormatRoundTrip(ns);
    StampIs(y, m, d, h, mi, s, StripZeros(Pad(nano, 9)));
  }

  lemma PrintedAs(c: Civil) returns (ns: int)
    requires Date(c.year, c.month, c.day) && c.hour < 24 && c.minute < 60 && c.second < 60 && c.nano < NS_PER_SECOND
    ensures InRange(ns) && Format(ns) == SecondText(c.(nano := 0)) + EndText(StripZeros(Pad(c.nano, 9)))
  {
    ns := TimeGm(c.year, c.month, c.day, c.hour, c.minute, c.second) * NS_PER_SECOND + c.nano;
    CivilIs(c);
    FractionText(c.nano);
    Assembled(SecondText(c), FracText(c.nano), EndText(StripZeros(Pad(c.nano, 9))));
  }

  lemma Assembled(sec: string, frac: string, end: string)
    requires frac + "Z" == end
    ensures sec + frac + "Z" == sec + end
  {}

  lemma FractionText(nano: nat)
    requires nano < NS_PER_SECOND
    ensures FracText(nano) + "Z" == EndText(StripZeros(Pad(nano, 9)))
  {
    var p := Pad(nano, 9);
    assert Pow10(9) == NS_PER_SECOND;
    PadValue(nano, 9);
    if nano == 0 {
      ZeroPad(9);
      ZerosStripped(9);
    } else if StripZeros(p) == "" {
      AllZerosValue(p);
    }
  }

  lemma {:induction false} ZeroPad(k: nat)
    ensures Pad(0, k) == Zeros(k)
  {
    if k == 0 {
    } else {
      ZeroPad(k - 1);
      assert Zeros(k) == Zeros(k - 1) + "0";
    }
  }

  lemma {:induction false} ZerosStripped(k: nat)
    ensures StripZeros(Zeros(k)) == ""
  {
    if k == 0 {
    } else {
      ZerosStripped(k - 1);
      assert Zeros(k)[..k - 1] == Zeros(k - 1);
    }
  }
}
