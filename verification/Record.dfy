/** `main` of scripts/trial_record.py: one trial's three captured logs joined into one row. */
module Record {
  import opened Common
  import opened Text
  import opened Logfmt
  import opened Rfc3339
  import opened TrialJoin

  // ---- Python's int() ---------------------------------------------------

  function TrimLeft(s: string): string {
    if s != "" && IsSpace(s[0]) then TrimLeft(s[1..]) else s
  }

  function Trim(s: string): string {
    if s != "" && IsSpace(s[|s| - 1]) then Trim(s[..|s| - 1]) else TrimLeft(s)
  }

  /** Digits, with single underscores between them. */
  predicate Numeral(s: string) {
    && s != "" && IsDigit(s[0]) && IsDigit(s[|s| - 1])
    && (forall i :: 0 <= i < |s| ==> IsDigit(s[i]) || s[i] == '_')
    && (forall i :: 0 <= i < |s| - 1 ==> IsDigit(s[i]) || IsDigit(s[i + 1]))
  }

  function NumeralValue(s: string): nat
    requires forall i :: 0 <= i < |s| ==> IsDigit(s[i]) || s[i] == '_'
  {
    if s == "" then 0
    else if s[|s| - 1] == '_' then NumeralValue(s[..|s| - 1])
    else 10 * NumeralValue(s[..|s| - 1]) + DigitValue(s[|s| - 1])
  }

  /** `int(s)`; None for its ValueError. */
  function IntOf(s: string): Option<int> {
    var t := Trim(s);
    if Numeral(t) then Some(NumeralValue(t))
    else if t != "" && (t[0] == '-' || t[0] == '+') && Numeral(t[1..]) then
      Some((if t[0] == '-' then -1 else 1) * NumeralValue(t[1..]))
    else None
  }

  lemma {:induction false} DigitsValue(s: string)
    requires AllDigits(s)
    ensures NumeralValue(s) == Value(s)
  {
    if s == "" {
    } else {
      DigitsValue(s[..|s| - 1]);
    }
  }

  /** What the actuator prints, `int` reads. */
  lemma IntRoundTrip(n: int)
    ensures IntOf(IntText(n)) == Some(n)
  {
    var d := Decimal(if n < 0 then -n else n);
    DecimalValue(if n < 0 then -n else n);
    DigitsValue(d);
    var s := IntText(n);
    assert Trim(s) == s;
    if n < 0 {
      assert s[1..] == d;
    }
  }

  /** White space only. */
  predicate Blank(s: string) {
    forall i :: 0 <= i < |s| ==> IsSpace(s[i])
  }

  lemma {:induction false} TrimBlanks(a: string, t: string, b: string)
    requires Blank(a) && Blank(b) && t != "" && !IsSpace(t[0]) && !IsSpace(t[|t| - 1])
    ensures Trim(a + t + b) == t
    decreases |a| + |b|
  {
    var s := a + t + b;
    if b != "" {
      var init := b[..|b| - 1];
      assert s[..|s| - 1] == a + t + init;
      TrimBlanks(a, t, init);
    } else {
      assert s == a + t && s[|s| - 1] == t[|t| - 1];
      TrimLeftBlanks(a, t);
    }
  }

  lemma {:induction false} TrimLeftBlanks(a: string, t: string)
    requires Blank(a) && t != "" && !IsSpace(t[0])
    ensures TrimLeft(a + t) == t
  {
    if a == "" {
      assert a + t == t;
    } else {
      assert (a + t)[1..] == a[1..] + t;
      TrimLeftBlanks(a[1..], t);
    }
  }

  predicate Tight(t: string) {
    t != "" && !IsSpace(t[0]) && !IsSpace(t[|t| - 1])
  }

  lemma TrimTight(t: string)
    requires Tight(t)
    ensures Trim(t) == t
  {}

  /** `int` takes white space around the number. */
  lemma IntTrims(a: string, t: string, b: string)
    requires Blank(a) && Blank(b) && Tight(t)
    ensures IntOf(a + t + b) == IntOf(t)
  {
    TrimBlanks(a, t, b);
    TrimTight(t);
  }

  /** And a sign before its digits. */
  lemma IntSigned(d: string)
    requires d != "" && AllDigits(d)
    ensures IntOf(d) == IntOf("+" + d) == Some(Value(d)) && IntOf("-" + d) == Some(0 - Value(d))
  {
    DigitsValue(d);
    TrimTight(d);
    SignedDigits("+", d);
    SignedDigits("-", d);
  }

  lemma SignedDigits(sign: string, d: string)
    requires d != "" && AllDigits(d) && (sign == "+" || sign == "-")
    ensures IntOf(sign + d) == Some((if sign == "-" then -1 else 1) * NumeralValue(d))
  {
    var t := sign + d;
    assert t[0] == sign[0] && t[1..] == d && t[|t| - 1] == d[|d| - 1];
    TrimTight(t);
  }

  /** It takes no text with a character that is no digit, underscore, sign or white space. */
  lemma IntRejects(s: string, i: nat)
    requires i < |s| && !IsDigit(s[i]) && s[i] !in ['_', '-', '+'] && !IsSpace(s[i])
    ensures IntOf(s).None?
  {
    TrimKeeps(s, s[i]);
    var t := Trim(s);
    var k :| 0 <= k < |t| && t[k] == s[i];
    assert !Numeral(t);
    if k > 0 {
      assert t[1..][k - 1] == s[i];
    }
  }

  lemma {:induction false} TrimKeeps(s: string, c: char)
    requires c in s && !IsSpace(c)
    ensures c in Trim(s)
  {
    if s != "" && IsSpace(s[|s| - 1]) {
      TrimKeeps(s[..|s| - 1], c);
    } else {
      TrimLeftKeeps(s, c);
    }
  }

  lemma {:induction false} TrimLeftKeeps(s: string, c: char)
    requires c in s && !IsSpace(c)
    ensures c in TrimLeft(s)
  {
    if s != "" && IsSpace(s[0]) {
      TrimLeftKeeps(s[1..], c);
    } else {
    }
  }

  lemma {:induction false} NumeralJoins(a: string, b: string)
    requires AllDigits(a) && AllDigits(b)
    ensures NumeralValue(a + "_" + b) == Value(a + b)
  {
    var s := a + "_" + b;
    if b == "" {
      assert s[..|s| - 1] == a && a + b == a;
      DigitsValue(a);
    } else {
      var init := b[..|b| - 1];
      assert s[..|s| - 1] == a + "_" + init && (a + b)[..|a + b| - 1] == a + init;
      NumeralJoins(a, init);
    }
  }

  /** Single underscores between digits do not count; two in a row are an error. */
  lemma IntUnderscore(a: string, b: string)
    requires a != "" && b != "" && AllDigits(a) && AllDigits(b)
    ensures IntOf(a + "_" + b) == Some(Value(a + b))
    ensures IntOf(a + "__" + b).None?
  {
    NumeralJoins(a, b);
    OneUnderscore(a + "_" + b, |a|);
    TwoUnderscores(a + "__" + b, |a|);
  }

  lemma OneUnderscore(s: string, k: nat)
    requires 0 < k < |s| - 1 && s[k] == '_' && forall i :: 0 <= i < |s| && i != k ==> IsDigit(s[i])
    ensures IntOf(s) == Some(NumeralValue(s))
  {
    TrimTight(s);
  }

  lemma TwoUnderscores(s: string, k: nat)
    requires 0 < k < |s| - 2 && s[k] == '_' && s[k + 1] == '_' && IsDigit(s[0]) && IsDigit(s[|s| - 1])
    ensures IntOf(s).None?
  {
    TrimTight(s);
    assert !Numeral(s);
  }

  // ---- the sample's columns ---------------------------------------------

  /** `sample.get(k, "")`; empty without a sample. */
  function Cell(sample: Option<Line>, k: string): string {
    if sample.Some? && sample.value.Get(k).Some? then sample.value.Get(k).value else ""
  }

  /** `int(sample[k]) if k in sample else None`. */
  function Instant(sample: Option<Line>, k: string): Option<int> {
    if sample.Some? && sample.value.Get(k).Some? then IntOf(sample.value.Get(k).value) else None
  }

  /** `int` raises on the field. */
  predicate BadInstant(sample: Option<Line>, k: string) {
    sample.Some? && sample.value.Get(k).Some? && IntOf(sample.value.Get(k).value).None?
  }

  /** The columns copied from the sample's line. */
  datatype Copied = Copied(
    jti: string, subject: string, detect: string, translate: string, transport: string, actuate: string)

  function CopiedFrom(sample: Option<Line>): Copied {
    Copied(Cell(sample, "jti"), Cell(sample, "subject"), Cell(sample, "detect_us"), Cell(sample, "translate_us"),
           Cell(sample, "transport_us"), Cell(sample, "actuate_us"))
  }

  /** The row as written, with the raw lower edge and the midpoint it was computed from; or an uncaught
      ValueError, which leaves the CSV alone. */
  datatype Report =
    | Raised
    | Wrote(row: Row, copied: Copied, t8Lo: Option<int>, mid: Option<int>, nEvents: nat, nDeduped: nat, nFailed: nat)

  /** The lines `find_actuation` is given. */
  function Own(actuator: seq<Line>, start: Stamp): seq<Line> {
    Filter(actuator, InWindow(Bound(start)))
  }

  /** A report is right for three parsed logs: counts and sample come from the lines in the window, the
      deny window is searched from the sample's T0, and every column follows from these. */
  ghost predicate IsReport(actuator: seq<Line>, prober: seq<Line>, start: Stamp, out: Report)
    requires out.Wrote?
  {
    var own := Own(actuator, start);
    var sample := First(own, IsSample);
    && out.nEvents == Count(own, IsEvent) && out.nDeduped == Count(own, IsDeduped)
        && out.nFailed == Count(own, IsFailed)
    && out.copied == CopiedFrom(sample)
    && IsWindow(prober, Instant(sample, "t0_ns"), out.row.t8, out.t8Lo)
    && Joined(out.row, out.mid, sample.Some?, Instant(sample, "t0_ns"), Instant(sample, "t6_ns"), out.row.t8, out.t8Lo)
  }

  /** Exactly when the script dies: a stamp with an impossible month or year zero, or a bad integer. */
  predicate Dies(actuator: seq<Line>, prober: seq<Line>, start: Stamp) {
    var sample := First(Own(actuator, start), IsSample);
    || start.Raises? || (start.At? && !Readable(actuator))
    || BadInstant(sample, "t0_ns") || BadInstant(sample, "t6_ns")
    || DenyRaises(prober, Instant(sample, "t0_ns"))
  }

  /** `main`, between reading the captures and appending the row. */
  method RecordTrial(actuatorText: string, proberText: string, translatorText: string) returns (out: Report)
    ensures out.Raised? <==> Dies(ReadLog(actuatorText), ReadLog(proberText), WindowStart(ReadLog(translatorText)))
    ensures out.Wrote? ==> IsReport(ReadLog(actuatorText), ReadLog(proberText),
        WindowStart(ReadLog(translatorText)), out)
  {
    var actuator, prober, translator := ReadLog(actuatorText), ReadLog(proberText), ReadLog(translatorText);
    var start := WindowStart(translator);
    if start.Raises? {
      return Raised;
    }
    var raised, own := WithinTrial(actuator, Bound(start));
    if raised {
      return Raised;
    }
    var sample, nEvents, nDeduped, nFailed := FindActuation(own);
    if BadInstant(sample, "t0_ns") || BadInstant(sample, "t6_ns") {
      return Raised;
    }
    var t0, t6 := Instant(sample, "t0_ns"), Instant(sample, "t6_ns");
    var died, t8, t8Lo := FindDenyWindow(prober, t0);
    if died {
      return Raised;
    }
    var row, mid := AssembleRow(sample.Some?, t0, t6, t8, t8Lo);
    return Wrote(row, CopiedFrom(sample), t8Lo, mid, nEvents, nDeduped, nFailed);
  }

  /** The copied cells are the sample's own fields, empty when it lacks one; a row without a revocation has no
      sample, hence empty cells and no stamps of its own. */
  lemma CellsCopied(actuator: seq<Line>, prober: seq<Line>, start: Stamp, out: Report)
    requires out.Wrote? && IsReport(actuator, prober, start, out)
    ensures out.row.result == "no_revocation" ==>
              && out.copied == Copied("", "", "", "", "", "") && out.row.t0.None? && out.row.t6.None?
              && out.row.pipeline.None? && out.row.enforce.None? && out.row.endToEnd.None?
    ensures out.row.result != "no_revocation" ==>
              exists i :: 0 <= i < |actuator| && actuator[i].Get("result") == Some("revoked")
                          && IsCopied(out.copied, actuator[i].fields)
  {
    var own := Own(actuator, start);
    FirstIsCounted(own, IsSample);
    if out.row.result != "no_revocation" {
      var sample := First(own, IsSample).value;
      FilterIn(actuator, InWindow(Bound(start)), sample);
      var i :| 0 <= i < |actuator| && actuator[i] == sample;
    }
  }

  predicate IsCopied(row: Copied, r: Record) {
    && row.jti == (if "jti" in r then r["jti"] else "") && row.subject == (if "subject" in r then r["subject"] else "")
    && row.detect == (if "detect_us" in r then r["detect_us"] else "")
    && row.translate == (if "translate_us" in r then r["translate_us"] else "")
    && row.transport == (if "transport_us" in r then r["transport_us"] else "")
    && row.actuate == (if "actuate_us" in r then r["actuate_us"] else "")
  }

  /** `end_to_end` is never negative: the deny is searched from T0 on. */
  lemma EndToEndNotNegative(actuator: seq<Line>, prober: seq<Line>, start: Stamp, out: Report)
    requires out.Wrote? && IsReport(actuator, prober, start, out)
    ensures out.row.endToEnd.Some? ==> out.row.endToEnd.value >= 0
    ensures out.row.result == "revoked" <==> out.row.t8.Some? && First(Own(actuator, start), IsSample).Some?
  {
    var after := Instant(First(Own(actuator, start), IsSample), "t0_ns");
    if out.row.t8.Some? {
      var i: nat :| IsFirstDeny(prober, after, i) && prober[i].stamp == At(out.row.t8.value);
    }
  }
}
