/** The process and the script agree: what `find_actuation` reads out of the actuator's text log is what
    the actuator's counters counted, whatever text subjects, ids and errors hold. */
module Agreement {
  import opened Common
  import opened Text
  import opened Json
  import opened Logfmt
  import opened Rfc3339
  import opened Spans
  import opened Protocol
  import opened Ledger
  import opened Accounting
  import opened TrialJoin

  /** A printed line as the script sees it. */
  function Read(line: Pairs, graphic: char -> bool): Line {
    TrialJoin.Stamped(ParseLine(PrintLine(line, graphic)))
  }

  function ReadAll(lines: seq<Pairs>, graphic: char -> bool): seq<Line> {
    Map(lines, Reader(graphic))
  }

  function Reader(graphic: char -> bool): Pairs -> Line {
    (line: Pairs) => Read(line, graphic)
  }

  lemma ReadLogPrinted(lines: seq<Pairs>, graphic: char -> bool)
    requires forall line :: line in lines ==> line != []
    ensures ReadLog(PrintLog(lines, graphic)) == ReadAll(lines, graphic)
  {
    ReadPrinted(lines, graphic);
  }

  // ---- one line ---------------------------------------------------------

  /** Printable ASCII without backslash. */
  predicate Literal(c: string) {
    forall i :: 0 <= i < |c| ==> ' ' <= c[i] <= '~' && c[i] != '\\'
  }

  lemma {:induction false} UnsafeShows(v: string, graphic: char -> bool)
    requires !JsonSafe(v, graphic)
    ensures '\\' in Escape(v, graphic)
  {
    if JsonSafeChar(v[0], graphic) {
      assert v == [v[0]] + v[1..];
      UnsafeShows(v[1..], graphic);
    } else {
      assert EscapeChar(v[0], graphic)[0] == '\\';
    }
  }

  /** No other text is read back as a literal. */
  lemma LiteralOnly(v: string, c: string, graphic: char -> bool)
    requires Literal(c)
    ensures Recovered(v, graphic) == c <==> v == c
  {
    if Recovered(v, graphic) == c && v != c {
      UnsafeShows(v, graphic);
    }
  }

  lemma AsciiKeysSafe(line: Pairs, graphic: char -> bool)
    requires AsciiKeys(line)
    ensures SafeKeys(line, graphic)
  {}

  lemma ReadField(line: Pairs, k: string, graphic: char -> bool)
    requires AsciiKeys(line)
    ensures Read(line, graphic).Get(k)
         == match Lookup(line, k) case None => None case Some(v) => Some(Recovered(v, graphic))
  {
    AsciiKeysSafe(line, graphic);
    ParsedField(line, k, graphic);
  }

  /** A field holding a literal is read exactly when it was printed. */
  lemma ReadLiteral(line: Pairs, k: string, c: string, graphic: char -> bool)
    requires AsciiKeys(line) && Literal(c)
    ensures Read(line, graphic).Get(k) == Some(c) <==> Lookup(line, k) == Some(c)
  {
    ReadField(line, k, graphic);
    if Lookup(line, k).Some? {
      LiteralOnly(Lookup(line, k).value, c, graphic);
    }
  }

  /** Lines of the actuator: literal keys, and no other result than the two it prints. */
  predicate Proper(line: Pairs) {
    && line != [] && AsciiKeys(line)
    && (Lookup(line, "result").Some?
        ==> Lookup(line, "result").value == "revoked" || Lookup(line, "result").value == "deduped")
  }

  /** The script files `l` under the outcome `line` reports. */
  predicate Filed(l: Line, line: Pairs) {
    && (IsEvent(l) <==> Says(line).Some?)
    && (IsSample(l) <==> Says(line) == Some(Revoked))
    && (IsDeduped(l) <==> Says(line) == Some(Deduped))
    && (IsFailed(l) <==> Says(line) == Some(Failed))
  }

  /** `l` and `line` agree on whether field `k` is there, and on whether it is `c`. */
  predicate SameField(l: Line, line: Pairs, k: string, c: string) {
    && (l.Get(k).Some? <==> Lookup(line, k).Some?)
    && (l.Get(k) == Some(c) <==> Lookup(line, k) == Some(c))
  }

  lemma FiledByFields(l: Line, line: Pairs)
    requires Proper(line)
    requires SameField(l, line, "result", "revoked") && SameField(l, line, "result", "deduped")
    requires SameField(l, line, "result", "failed")
    requires SameField(l, line, "msg", NOT_ACTUATED) && SameField(l, line, "msg", NOT_DECODED)
    ensures Filed(l, line)
  {}

  lemma ReadSame(line: Pairs, k: string, c: string, graphic: char -> bool)
    requires AsciiKeys(line) && Literal(c)
    ensures SameField(Read(line, graphic), line, k, c)
  {
    ReadField(line, k, graphic);
    ReadLiteral(line, k, c, graphic);
  }

  lemma Literals()
    ensures Literal("revoked") && Literal("deduped") && Literal("failed") && Literal(NOT_ACTUATED)
        && Literal(NOT_DECODED)
  {}

  lemma ReadResult(line: Pairs, graphic: char -> bool)
    requires AsciiKeys(line)
    ensures var l := Read(line, graphic);
            && SameField(l, line, "result", "revoked") && SameField(l, line, "result", "deduped")
            && SameField(l, line, "result", "failed")
  {
    Literals();
    ReadSame(line, "result", "revoked", graphic);
    ReadSame(line, "result", "deduped", graphic);
    ReadSame(line, "result", "failed", graphic);
  }

  lemma ReadMessage(line: Pairs, graphic: char -> bool)
    requires AsciiKeys(line)
    ensures var l := Read(line, graphic);
            SameField(l, line, "msg", NOT_ACTUATED) && SameField(l, line, "msg", NOT_DECODED)
  {
    Literals();
    ReadSame(line, "msg", NOT_ACTUATED, graphic);
    ReadSame(line, "msg", NOT_DECODED, graphic);
  }

  lemma ReadSays(line: Pairs, graphic: char -> bool)
    requires Proper(line)
    ensures Filed(Read(line, graphic), line)
  {
    ReadResult(line, graphic);
    ReadMessage(line, graphic);
    FiledByFields(Read(line, graphic), line);
  }

  // ---- the actuator's lines ---------------------------------------------

  ghost predicate LogProper(s: State) {
    Formed(s) && forall line :: line in s.log ==> Proper(line)
  }

  lemma AttrsAscii(c: Clocks)
    ensures AsciiKeys(Attrs(c))
  {
    forall i | 0 <= i < |Attrs(c)|
      ensures forall j :: 0 <= j < |Attrs(c)[i].0| ==> ' ' <= Attrs(c)[i].0[j] <= '~'
    {
      var k := Attrs(c)[i].0;
      assert HasKey(Attrs(c), k);
      if k !in ["t0_ns", "t1_ns", "t3_ns", "t4_ns", "t5_ns", "t6_ns"] {
        AttrsKeys(c, k);
      }
    }
  }

  lemma AsciiConcat(a: Pairs, b: Pairs)
    requires AsciiKeys(a) && AsciiKeys(b)
    ensures AsciiKeys(a + b)
  {
    forall i | 0 <= i < |a + b| ensures forall j :: 0 <= j < |(a + b)[i].0| ==> ' ' <= (a + b)[i].0[j] <= '~' {
      assert (a + b)[i] == if i < |a| then a[i] else b[i - |a|];
    }
  }

  lemma AnswerProper(policyRef: string, body: Body, o: Outcome, r: Reading)
    requires InRange(r.time) && body.Decoded? && !o.Failed?
    ensures Proper(OutcomeLine(policyRef, body, o, r))
  {
    var msg := if o.Revoked? then ACTUATED else SKIPPED;
    var head := Protocol.Stamped(r, "INFO", msg);
    var answer := [("jti", body.jti), ("subject", body.subject), ("policy", policyRef), ("result", ResultText(o))];
    assert AsciiKeys(head) && AsciiKeys(answer);
    AttrsAscii(ClocksOf(body, r.Own()));
    AsciiConcat(head, answer);
    AsciiConcat(head + answer, Attrs(ClocksOf(body, r.Own())));
    AnswerLine(policyRef, body, o, r, "result");
  }

  lemma FailureProper(r: Reading, msg: string, rest: Pairs)
    requires InRange(r.time)
    requires forall i :: 0 <= i < |rest| ==> rest[i].0 == "error" || rest[i].0 == "subject" || rest[i].0 == "jti"
    ensures Proper(Protocol.Stamped(r, "ERROR", msg) + rest)
  {
    assert AsciiKeys(Protocol.Stamped(r, "ERROR", msg)) && AsciiKeys(rest);
    AsciiConcat(Protocol.Stamped(r, "ERROR", msg), rest);
    FailureLine(r, msg, rest, "result");
  }

  lemma OutcomeLineProper(policyRef: string, body: Body, o: Outcome, r: Reading)
    requires InRange(r.time) && (body.Garbled? ==> o.Failed?)
    ensures Proper(OutcomeLine(policyRef, body, o, r))
  {
    if body.Garbled? {
      FailureProper(r, NOT_DECODED, [("error", r.error)]);
    } else if o.Failed? {
      FailureProper(r, NOT_ACTUATED, [("error", r.error), ("subject", body.subject), ("jti", body.jti)]);
    } else {
      AnswerProper(policyRef, body, o, r);
    }
  }

  lemma LogProperStep(s: State, a: Action)
    requires Enabled(s, a) && LogProper(s)
    ensures LogProper(Apply(s, a))
  {
    FormedStep(s, a);
    LogStep(s, a);
    if a.Report? {
      var h := s.handlers[a.i];
      assert h in s.handlers;
      OutcomeLineProper(s.policyRef, h.body, h.phase.o, a.reading);
    }
  }

  lemma {:induction false} LogProperRun(s: State, acts: seq<Action>)
    requires LogProper(s) && Run(s, acts).Some?
    ensures LogProper(Run(s, acts).value)
  {
    if acts == [] {
    } else {
      LogProperRun(s, acts[..|acts| - 1]);
      LogProperStep(Run(s, acts[..|acts| - 1]).value, acts[|acts| - 1]);
    }
  }

  // ---- counts over a log ------------------------------------------------

  lemma {:induction false} FiledCounts(ls: seq<Line>, lines: seq<Pairs>)
    requires |ls| == |lines| && forall i :: 0 <= i < |ls| ==> Filed(ls[i], lines[i])
    ensures Count(ls, IsSample) == Count(lines, Saying(Revoked))
    ensures Count(ls, IsDeduped) == Count(lines, Saying(Deduped))
    ensures Count(ls, IsFailed) == Count(lines, Saying(Failed))
    ensures Count(ls, IsEvent) == Count(ls, IsSample) + Count(ls, IsDeduped) + Count(ls, IsFailed)
    ensures First(ls, IsSample).Some? ==>
              exists i :: 0 <= i < |ls| && First(ls, IsSample) == Some(ls[i])
                  && First(lines, Saying(Revoked)) == Some(lines[i])
  {
    if ls == [] {
    } else {
      var n := |ls| - 1;
      FiledCounts(ls[..n], lines[..n]);
      assert Filed(ls[n], lines[n]);
      FirstIsCounted(ls[..n], IsSample);
      FirstIsCounted(lines[..n], Saying(Revoked));
      if First(ls[..n], IsSample).Some? {
        var i :| 0 <= i < n && First(ls[..n], IsSample) == Some(ls[..n][i])
            && First(lines[..n], Saying(Revoked)) == Some(lines[..n][i]);
        assert ls[i] == ls[..n][i] && lines[i] == lines[..n][i];
      }
    }
  }

  lemma ReadFiled(lines: seq<Pairs>, graphic: char -> bool)
    requires forall line :: line in lines ==> Proper(line)
    ensures forall i :: 0 <= i < |lines| ==> Filed(ReadAll(lines, graphic)[i], lines[i])
  {
    forall i | 0 <= i < |lines| ensures Filed(ReadAll(lines, graphic)[i], lines[i]) {
      ReadSays(lines[i], graphic);
    }
  }

  // ---- results ----------------------------------------------------------

  /** What `find_actuation` returns for a log, named once. */
  predicate Actuation(ls: seq<Line>, sample: Option<Line>, nEvents: nat, nDeduped: nat, nFailed: nat) {
    && sample == First(ls, IsSample)
    && nEvents == Count(ls, IsEvent) && nDeduped == Count(ls, IsDeduped) && nFailed == Count(ls, IsFailed)
  }

  predicate SampleIs(l: Line, first: Option<Pairs>, graphic: char -> bool) {
    first.Some? && l == Read(first.value, graphic)
  }

  /** Between two quiescent points of any run, `find_actuation` over the text logged in between returns the
      counters' deltas, and a sample exactly when the `revoked` counter moved: the first such line. */
  lemma ReaderMatchesCounters(s: State, acts: seq<Action>, t: State, graphic: char -> bool,
      sample: Option<Line>, nEvents: nat, nDeduped: nat, nFailed: nat)
    requires LogProper(s) && Quiescent(s) && Run(s, acts) == Some(t) && Quiescent(t)
    ensures s.log <= t.log
    ensures Actuation(ReadLog(PrintLog(Since(s, t), graphic)), sample, nEvents, nDeduped, nFailed) ==>
              && nDeduped == t.counts.deduped - s.counts.deduped
              && nFailed == t.counts.failed - s.counts.failed
              && nEvents == nDeduped + nFailed + t.counts.revoked - s.counts.revoked
              && (sample.Some? <==> t.counts.revoked > s.counts.revoked)
              && (sample.Some? ==> SampleIs(sample.value, First(Since(s, t), Saying(Revoked)), graphic))
  {
    CountersMatchLog(s, acts, t, Revoked);
    CountersMatchLog(s, acts, t, Deduped);
    CountersMatchLog(s, acts, t, Failed);
    LogProperRun(s, acts);
    var lines := Since(s, t);
    forall line | line in lines ensures Proper(line) {
      assert line in t.log;
    }
    ReadLogPrinted(lines, graphic);
    ReadFiled(lines, graphic);
    var ls := ReadAll(lines, graphic);
    FiledCounts(ls, lines);
    FirstIsCounted(ls, IsSample);
    assert t.counts.Of(Revoked) == t.counts.revoked && s.counts.Of(Revoked) == s.counts.revoked;
    assert t.counts.Of(Deduped) == t.counts.deduped && s.counts.Of(Deduped) == s.counts.deduped;
    assert t.counts.Of(Failed) == t.counts.failed && s.counts.Of(Failed) == s.counts.failed;
  }

  // ---- trials in one log ------------------------------------------------

  lemma LiteralRecovers(c: string, graphic: char -> bool)
    requires Literal(c)
    ensures Recovered(c, graphic) == c
  {
    LiteralOnly(c, c, graphic);
  }

  lemma LiteralConcat(a: string, b: string)
    requires Literal(a) && Literal(b)
    ensures Literal(a + b)
  {}

  lemma DigitsLiteral(s: string)
    requires AllDigits(s)
    ensures Literal(s)
  {}

  lemma {:induction false} StripZerosDigits(s: string)
    requires AllDigits(s)
    ensures AllDigits(StripZeros(s))
  {
    StripZerosRestores(s);
  }

  lemma FormatLiteral(ns: int)
    requires InRange(ns)
    ensures Literal(Format(ns))
  {
    var c := CivilOf(ns);
    StripZerosDigits(Pad(c.nano, 9));
    DigitsLiteral(StripZeros(Pad(c.nano, 9)));
    assert Literal("-") && Literal(":") && Literal("T") && Literal(".") && Literal("Z") && Literal("");
    SecondLiteral(c);
    if c.nano != 0 {
      LiteralConcat(".", StripZeros(Pad(c.nano, 9)));
    }
    LiteralConcat(SecondText(c), FracText(c.nano));
    LiteralConcat(SecondText(c) + FracText(c.nano), "Z");
  }

  lemma SecondLiteral(c: Civil)
    ensures Literal(SecondText(c))
  {
    var s := SecondText(c);
    forall i | 0 <= i < |s| ensures ' ' <= s[i] <= '~' && s[i] != '\\' {
      assert IsDigit(s[i]) || s[i] == '-' || s[i] == ':' || s[i] == 'T';
    }
  }

  /** The line carries the printed instant `ns`. */
  predicate LoggedAt(line: Pairs, ns: int) {
    InRange(ns) && Lookup(line, "time") == Some(Format(ns))
  }

  /** The script reads the exact instant a line was logged at. */
  lemma ReadStamp(line: Pairs, ns: int, graphic: char -> bool)
    requires AsciiKeys(line) && LoggedAt(line, ns)
    ensures Read(line, graphic).stamp == At(ns)
  {
    ReadField(line, "time", graphic);
    FormatLiteral(ns);
    LiteralRecovers(Format(ns), graphic);
    FormatRoundTrip(ns);
  }

  ghost predicate AllLogged(lines: seq<Pairs>, start: int, before: bool) {
    forall line :: line in lines ==> exists ns :: LoggedAt(line, ns) && (ns < start) == before
  }

  /** Every trial of a run: the actuator's log accumulates, but when what earlier trials left was logged
      before the trial's first translator stamp and its own lines were not, `find_actuation` over
      `within_trial` of the whole text returns what the counters counted during this trial. */
  lemma TrialMatchesCounters(s: State, acts: seq<Action>, t: State, start: int, graphic: char -> bool,
      sample: Option<Line>, nEvents: nat, nDeduped: nat, nFailed: nat)
    requires LogProper(s) && Quiescent(s) && Run(s, acts) == Some(t) && Quiescent(t)
    requires s.log <= t.log && AllLogged(s.log, start, true) && AllLogged(Since(s, t), start, false)
    requires Actuation(Filter(ReadLog(PrintLog(t.log, graphic)), InWindow(Some(start))), sample, nEvents, nDeduped,
        nFailed)
    ensures nDeduped == t.counts.deduped - s.counts.deduped
    ensures nFailed == t.counts.failed - s.counts.failed
    ensures nEvents == nDeduped + nFailed + t.counts.revoked - s.counts.revoked
    ensures sample.Some? <==> t.counts.revoked > s.counts.revoked
    ensures sample.Some? ==> SampleIs(sample.value, First(Since(s, t), Saying(Revoked)), graphic)
  {
    LogProperRun(s, acts);
    assert t.log == s.log + Since(s, t);
    forall line | line in Since(s, t) ensures Proper(line) {
      assert line in t.log;
    }
    WindowCuts(s.log, Since(s, t), start, graphic);
    ReaderMatchesCounters(s, acts, t, graphic, sample, nEvents, nDeduped, nFailed);
  }

  /** The window cuts an accumulated text log exactly between the trials. */
  lemma WindowCuts(earlier: seq<Pairs>, own: seq<Pairs>, start: int, graphic: char -> bool)
    requires forall line :: line in earlier ==> Proper(line)
    requires forall line :: line in own ==> Proper(line)
    requires AllLogged(earlier, start, true) && AllLogged(own, start, false)
    ensures Filter(ReadLog(PrintLog(earlier + own, graphic)), InWindow(Some(start))) == ReadLog(PrintLog(own, graphic))
  {
    ReadLogPrinted(earlier + own, graphic);
    ReadLogPrinted(own, graphic);
    assert ReadAll(earlier + own, graphic) == ReadAll(earlier, graphic) + ReadAll(own, graphic);
    WindowOf(earlier, start, true, graphic);
    WindowOf(own, start, false, graphic);
    TrialIsolated(ReadAll(earlier, graphic), ReadAll(own, graphic), start);
  }

  lemma WindowOfLine(line: Pairs, start: int, before: bool, graphic: char -> bool)
    requires AsciiKeys(line) && exists ns :: LoggedAt(line, ns) && (ns < start) == before
    ensures InWindow(Some(start))(Read(line, graphic)) == !before
  {
    var ns :| LoggedAt(line, ns) && (ns < start) == before;
    ReadStamp(line, ns, graphic);
  }

  lemma WindowOf(lines: seq<Pairs>, start: int, before: bool, graphic: char -> bool)
    requires forall line :: line in lines ==> Proper(line)
    requires AllLogged(lines, start, before)
    ensures forall l :: l in ReadAll(lines, graphic) ==> InWindow(Some(start))(l) == !before
  {
    forall l | l in ReadAll(lines, graphic) ensures InWindow(Some(start))(l) == !before {
      var i :| 0 <= i < |lines| && l == ReadAll(lines, graphic)[i];
      assert lines[i] in lines;
      WindowOfLine(lines[i], start, before, graphic);
    }
  }
}
