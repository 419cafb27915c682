/** One trial end to end: the row `main` of scripts/trial_record.py writes from three text logs, against
    the actuator run, the prober trace and the deny instant tau that produced them. */
module Trial {
  import opened Common
  import opened Text
  import opened Logfmt
  import opened Rfc3339
  import opened Spans
  import opened Protocol
  import opened Ledger
  import opened Accounting
  import opened Determinism
  import opened TrialJoin
  import opened Record
  import opened Prober
  import opened Agreement
  import opened ProberText

  // ---- what a revoked line carries --------------------------------------

  function RevokedLine(policyRef: string, body: Body, r: Reading): Pairs
    requires body.Decoded? && InRange(r.time)
  {
    OutcomeLine(policyRef, body, Revoked, r)
  }

  lemma LineParts(policyRef: string, body: Body, r: Reading, k: string)
    requires body.Decoded? && InRange(r.time)
    ensures var attrs := Lookup(Attrs(ClocksOf(body, r.Own())), k);
            var answer := Lookup([("jti", body.jti), ("subject", body.subject), ("policy", policyRef),
                ("result", "revoked")], k);
            Lookup(RevokedLine(policyRef, body, r), k) ==
            if attrs.Some? then attrs else if answer.Some? then answer
                else Lookup(Protocol.Stamped(r, "INFO", ACTUATED), k)
  {
    var head := Protocol.Stamped(r, "INFO", ACTUATED);
    var answer := [("jti", body.jti), ("subject", body.subject), ("policy", policyRef), ("result", "revoked")];
    LookupAppend(head + answer, Attrs(ClocksOf(body, r.Own())), k);
    LookupAppend(head, answer, k);
  }

  /** A measured column comes from the span table. */
  lemma Measured(policyRef: string, body: Body, r: Reading, k: string)
    requires body.Decoded? && InRange(r.time) && '_' in k
    ensures Lookup(RevokedLine(policyRef, body, r), k) == Lookup(Attrs(ClocksOf(body, r.Own())), k)
  {
    AnswerLine(policyRef, body, Revoked, r, k);
  }

  /** The subject and jti columns come from the SET. */
  lemma Named(policyRef: string, body: Body, r: Reading, k: string)
    requires body.Decoded? && InRange(r.time) && (k == "jti" || k == "subject")
    ensures Lookup(RevokedLine(policyRef, body, r), k) == Some(if k == "jti" then body.jti else body.subject)
  {
    var c := ClocksOf(body, r.Own());
    LineParts(policyRef, body, r, k);
    LookupAnswer(body.jti, body.subject, policyRef, "revoked", k);
    AttrsKeys(c, k);
    LookupHasKey(Attrs(c), k);
    forall i | 0 <= i < |SpanTable(c)| ensures UsKey(SpanTable(c)[i].stage) != k {
      assert UsKey(SpanTable(c)[i].stage)[|UsKey(SpanTable(c)[i].stage)| - 1] == 's';
    }
  }

  // ---- what the script reads of it --------------------------------------

  lemma IntLiteral(n: int)
    ensures Literal(IntText(n))
  {
    DigitsLiteral(Decimal(if n < 0 then -n else n));
    assert Literal("-");
    LiteralConcat("-", Decimal(if n < 0 then -n else n));
  }

  /** A field that prints an integer, or is not there, is read as it was printed. */
  lemma ReadInt(line: Pairs, k: string, n: Option<int>, graphic: char -> bool)
    requires AsciiKeys(line) && Lookup(line, k) == ClockText(n)
    ensures Read(line, graphic).Get(k) == Lookup(line, k)
    ensures Instant(Some(Read(line, graphic)), k) == n
  {
    ReadField(line, k, graphic);
    if n.Some? {
      IntLiteral(n.value);
      LiteralRecovers(IntText(n.value), graphic);
      IntRoundTrip(n.value);
    }
  }

  /** A duration column; empty when an end is unknown. */
  function GapCell(start: Clock, stop: Clock): string {
    var text := ClockText(Gap(start, stop));
    if text.Some? then text.value else ""
  }

  /** The cell is the time from `start` to `stop` in whole microseconds, or empty. */
  ghost predicate TimedCell(cell: string, start: Clock, stop: Clock) {
    Timed(if cell == "" then None else Some(cell), start, stop)
  }

  lemma GapCellTimed(start: Clock, stop: Clock)
    ensures TimedCell(GapCell(start, stop), start, stop)
  {
    GapTimed(start, stop);
  }

  lemma ReadStamps(policyRef: string, body: Body, r: Reading, graphic: char -> bool)
    requires body.Decoded? && InRange(r.time) && AsciiKeys(RevokedLine(policyRef, body, r))
    ensures var l := Some(Read(RevokedLine(policyRef, body, r), graphic));
            Instant(l, "t0_ns") == body.t0 && Instant(l, "t6_ns") == Some(r.t6)
  {
    var c := ClocksOf(body, r.Own());
    StampField(c, 0);
    StampField(c, 5);
    Measured(policyRef, body, r, "t0_ns");
    Measured(policyRef, body, r, "t6_ns");
    ReadInt(RevokedLine(policyRef, body, r), "t0_ns", body.t0, graphic);
    ReadInt(RevokedLine(policyRef, body, r), "t6_ns", Some(r.t6), graphic);
  }

  lemma ReadGap(policyRef: string, body: Body, r: Reading, k: nat, span: Span, graphic: char -> bool)
    requires body.Decoded? && InRange(r.time) && AsciiKeys(RevokedLine(policyRef, body, r))
    requires k < 5 && SpanTable(ClocksOf(body, r.Own()))[k] == span
    ensures Cell(Some(Read(RevokedLine(policyRef, body, r), graphic)), UsKey(span.stage))
        == GapCell(span.start, span.stop)
  {
    SpanField(ClocksOf(body, r.Own()), k);
    assert UsKey(span.stage)[|span.stage|] == '_';
    Measured(policyRef, body, r, UsKey(span.stage));
    ReadInt(RevokedLine(policyRef, body, r), UsKey(span.stage), Gap(span.start, span.stop), graphic);
  }

  /** The columns of a revoked event. */
  function Columns(body: Body, r: Reading, graphic: char -> bool): Copied
    requires body.Decoded?
  {
    Copied(Recovered(body.jti, graphic), Recovered(body.subject, graphic),
           GapCell(body.t0, body.t1), GapCell(body.t1, body.t3), GapCell(body.t3, Some(r.t4)),
               GapCell(Some(r.t5), Some(r.t6)))
  }

  /** The stage columns of a row, as the spans of an event. */
  ghost predicate StagesTimed(row: Copied, body: Body, r: Reading)
    requires body.Decoded?
  {
    && TimedCell(row.detect, body.t0, body.t1) && TimedCell(row.translate, body.t1, body.t3)
    && TimedCell(row.transport, body.t3, Some(r.t4)) && TimedCell(row.actuate, Some(r.t5), Some(r.t6))
  }

  lemma ColumnsTimed(body: Body, r: Reading, graphic: char -> bool)
    requires body.Decoded?
    ensures StagesTimed(Columns(body, r, graphic), body, r)
  {
    GapCellTimed(body.t0, body.t1);
    GapCellTimed(body.t1, body.t3);
    GapCellTimed(body.t3, Some(r.t4));
    GapCellTimed(Some(r.t5), Some(r.t6));
  }

  lemma ReadNames(policyRef: string, body: Body, r: Reading, graphic: char -> bool)
    requires body.Decoded? && InRange(r.time) && AsciiKeys(RevokedLine(policyRef, body, r))
    ensures var l := Some(Read(RevokedLine(policyRef, body, r), graphic));
            Cell(l, "jti") == Recovered(body.jti, graphic) && Cell(l, "subject") == Recovered(body.subject, graphic)
  {
    Named(policyRef, body, r, "jti");
    Named(policyRef, body, r, "subject");
    ReadField(RevokedLine(policyRef, body, r), "jti", graphic);
    ReadField(RevokedLine(policyRef, body, r), "subject", graphic);
  }

  lemma ReadGaps(policyRef: string, body: Body, r: Reading, graphic: char -> bool)
    requires body.Decoded? && InRange(r.time) && AsciiKeys(RevokedLine(policyRef, body, r))
    ensures var l := Some(Read(RevokedLine(policyRef, body, r), graphic));
            && Cell(l, UsKey("detect")) == GapCell(body.t0, body.t1)
            && Cell(l, UsKey("translate")) == GapCell(body.t1, body.t3)
            && Cell(l, UsKey("transport")) == GapCell(body.t3, Some(r.t4))
            && Cell(l, UsKey("actuate")) == GapCell(Some(r.t5), Some(r.t6))
  {
    ReadUpstream(policyRef, body, r, graphic);
    ReadOwn(policyRef, body, r, graphic);
  }

  lemma ReadUpstream(policyRef: string, body: Body, r: Reading, graphic: char -> bool)
    requires body.Decoded? && InRange(r.time) && AsciiKeys(RevokedLine(policyRef, body, r))
    ensures var l := Some(Read(RevokedLine(policyRef, body, r), graphic));
            && Cell(l, UsKey("detect")) == GapCell(body.t0, body.t1)
            && Cell(l, UsKey("translate")) == GapCell(body.t1, body.t3)
  {
    ReadGap(policyRef, body, r, 0, Span("detect", body.t0, body.t1), graphic);
    ReadGap(policyRef, body, r, 1, Span("translate", body.t1, body.t3), graphic);
  }

  lemma ReadOwn(policyRef: string, body: Body, r: Reading, graphic: char -> bool)
    requires body.Decoded? && InRange(r.time) && AsciiKeys(RevokedLine(policyRef, body, r))
    ensures var l := Some(Read(RevokedLine(policyRef, body, r), graphic));
            && Cell(l, UsKey("transport")) == GapCell(body.t3, Some(r.t4))
            && Cell(l, UsKey("actuate")) == GapCell(Some(r.t5), Some(r.t6))
  {
    ReadGap(policyRef, body, r, 2, Span("transport", body.t3, Some(r.t4)), graphic);
    ReadGap(policyRef, body, r, 3, Span("actuate", Some(r.t5), Some(r.t6)), graphic);
  }

  lemma ReadColumns(policyRef: string, body: Body, r: Reading, graphic: char -> bool)
    requires body.Decoded? && InRange(r.time) && AsciiKeys(RevokedLine(policyRef, body, r))
    ensures CopiedFrom(Some(Read(RevokedLine(policyRef, body, r), graphic))) == Columns(body, r, graphic)
  {
    ReadNames(policyRef, body, r, graphic);
    ReadGaps(policyRef, body, r, graphic);
    StageKeys();
  }

  // ---- where the line came from -----------------------------------------

  /** `line` is the outcome line handler `i` logged at reading `r` for its revoked event. */
  predicate LoggedBy(s: State, line: Pairs, i: nat, r: Reading) {
    && i < |s.handlers| && s.handlers[i].phase == Done(Revoked) && s.handlers[i].body.Decoded?
    && InRange(r.time) && line == RevokedLine(s.policyRef, s.handlers[i].body, r)
  }

  lemma LoggedByStays(s: State, a: Action, line: Pairs, i: nat, r: Reading)
    requires Enabled(s, a) && LoggedBy(s, line, i, r)
    ensures LoggedBy(Apply(s, a), line, i, r)
  {
    DoneStays(s, a, i);
  }

  lemma DoneStays(s: State, a: Action, i: nat)
    requires Enabled(s, a) && i < |s.handlers| && s.handlers[i].phase.Done?
    ensures i < |Apply(s, a).handlers| && Apply(s, a).handlers[i] == s.handlers[i]
        && Apply(s, a).policyRef == s.policyRef
  {
    CountStep(s, a, IsAccounted(Revoked));
  }

  lemma LoggedByNew(s: State, a: Action, k: nat) returns (i: nat, r: Reading)
    requires Enabled(s, a) && Formed(s) && |s.log| <= k < |Apply(s, a).log| && Says(Apply(s, a).log[k]) == Some(Revoked)
    ensures LoggedBy(Apply(s, a), Apply(s, a).log[k], i, r) && Mover(a) == Some(i)
  {
    LogStep(s, a);
    if !a.Report? {
      assert false;
    }
    var h := s.handlers[a.i];
    OutcomeLineSays(s.policyRef, h.body, h.phase.o, a.reading);
    i, r := a.i, a.reading;
  }

  /** Every revoked line a run adds was logged by a handler that arrived during it. */
  lemma {:induction false} RevokedLogged(s: State, acts: seq<Action>, t: State, k: nat) returns (i: nat, r: Reading)
    requires Formed(s) && Quiescent(s) && Run(s, acts) == Some(t)
    requires |s.log| <= k < |t.log| && Says(t.log[k]) == Some(Revoked)
    ensures |s.handlers| <= i && LoggedBy(t, t.log[k], i, r)
  {
    if acts == [] {
      assert false;
    } else {
      var init, a := acts[..|acts| - 1], acts[|acts| - 1];
      var m := Run(s, init).value;
      LogStep(m, a);
      if k < |m.log| {
        i, r := RevokedLogged(s, init, m, k);
        LoggedByStays(m, a, m.log[k], i, r);
      } else {
        FormedRun(s, init);
        i, r := LoggedByNew(m, a, k);
        BaseRun(s, init, m);
        MoverIsNew(s, m, a);
      }
    }
  }

  lemma {:induction false} BaseRun(s: State, acts: seq<Action>, t: State)
    requires Quiescent(s) && Run(s, acts) == Some(t)
    ensures SameBase(s, t)
  {
    if acts == [] {
    } else {
      var init := acts[..|acts| - 1];
      var m := Run(s, init).value;
      BaseRun(s, init, m);
      BaseStep(s, m, acts[|acts| - 1]);
    }
  }

  // ---- results ----------------------------------------------------------

  /** The logs of one trial: the actuator's text accumulated over the whole run, in which what came before
      this trial was logged before the translator's first stamp and this trial's lines were not. */
  ghost predicate Captured(s: State, t: State, start: Stamp) {
    && LogProper(s) && Quiescent(s) && Quiescent(t) && s.log <= t.log && start.At?
    && AllLogged(s.log, start.ns, true) && AllLogged(Since(s, t), start.ns, false)
  }

  /** The sample the script takes is the first revoked event of the trial. */
  lemma TrialSample(s: State, acts: seq<Action>, t: State, start: int, graphic: char -> bool,
      sample: Option<Line>, nEvents: nat, nDeduped: nat, nFailed: nat) returns (i: nat, r: Reading)
    requires Run(s, acts) == Some(t) && Captured(s, t, At(start))
    requires Actuation(Filter(ReadLog(PrintLog(t.log, graphic)), InWindow(Some(start))), sample, nEvents, nDeduped,
        nFailed)
    ensures Counted(s, t, nEvents, nDeduped, nFailed)
    ensures sample.Some? <==> t.counts.revoked > s.counts.revoked
    ensures sample.Some? ==> FirstRevoked(s, t, i, r) && Shown(t, i, r, graphic, sample)
  {
    TrialMatchesCounters(s, acts, t, start, graphic, sample, nEvents, nDeduped, nFailed);
    i, r := 0, Reading(0, 0, 0, 0, "");
    if sample.Some? {
      i, r := SampleEvent(s, acts, t);
      SampleRow(t, First(Since(s, t), Saying(Revoked)).value, i, r, graphic, sample.value);
    }
  }

  /** The three counts are the counters' deltas. */
  predicate Counted(s: State, t: State, nEvents: nat, nDeduped: nat, nFailed: nat) {
    && nDeduped == t.counts.deduped - s.counts.deduped && nFailed == t.counts.failed - s.counts.failed
    && nEvents == nDeduped + nFailed + t.counts.revoked - s.counts.revoked
  }

  /** Handler `i`, which arrived after `s`, logged the first revoked line since then, at reading `r`. */
  predicate FirstRevoked(s: State, t: State, i: nat, r: Reading) {
    && s.log <= t.log && |s.handlers| <= i && First(Since(s, t), Saying(Revoked)).Some?
    && LoggedBy(t, First(Since(s, t), Saying(Revoked)).value, i, r)
  }

  /** `sample` has the columns of that event. */
  predicate Shown(t: State, i: nat, r: Reading, graphic: char -> bool, sample: Option<Line>) {
    && i < |t.handlers| && t.handlers[i].body.Decoded?
    && Instant(sample, "t0_ns") == t.handlers[i].body.t0 && Instant(sample, "t6_ns") == Some(r.t6)
    && CopiedFrom(sample) == Columns(t.handlers[i].body, r, graphic)
  }

  /** The row counts what this trial's counters counted; and its sample, there exactly when the `revoked`
      counter moved, has the T0, T6, names and stage columns of the first revoked event of the trial. */
  lemma TrialRow(s: State, acts: seq<Action>, t: State, start: int, prober: seq<Line>, graphic: char -> bool,
          out: Report)
    returns (i: nat, r: Reading)
    requires Run(s, acts) == Some(t) && Captured(s, t, At(start))
    requires out.Wrote? && IsReport(ReadLog(PrintLog(t.log, graphic)), prober, At(start), out)
    ensures Counted(s, t, out.nEvents, out.nDeduped, out.nFailed)
    ensures t.counts.revoked > s.counts.revoked <==> out.row.result != "no_revocation"
    ensures t.counts.revoked > s.counts.revoked ==>
              && FirstRevoked(s, t, i, r) && t.handlers[i].body.Decoded?
              && out.row.t0 == t.handlers[i].body.t0 && out.row.t6 == Some(r.t6)
              && out.copied == Columns(t.handlers[i].body, r, graphic)
              && StagesTimed(out.copied, t.handlers[i].body, r)
  {
    var sample := ReportActuation(ReadLog(PrintLog(t.log, graphic)), prober, start, out);
    i, r := TrialSample(s, acts, t, start, graphic, sample, out.nEvents, out.nDeduped, out.nFailed);
    if sample.Some? {
      ColumnsTimed(t.handlers[i].body, r, graphic);
    }
  }

  lemma ReportActuation(actuator: seq<Line>, prober: seq<Line>, start: int, out: Report) returns (sample: Option<Line>)
    requires out.Wrote? && IsReport(actuator, prober, At(start), out)
    ensures Actuation(Filter(actuator, InWindow(Some(start))), sample, out.nEvents, out.nDeduped, out.nFailed)
    ensures out.row.t0 == Instant(sample, "t0_ns") && out.row.t6 == Instant(sample, "t6_ns")
        && out.copied == CopiedFrom(sample)
    ensures sample.None? <==> out.row.result == "no_revocation"
  {
    sample := First(Own(actuator, At(start)), IsSample);
  }

  lemma SampleRow(t: State, line: Pairs, i: nat, r: Reading, graphic: char -> bool, sample: Line)
    requires LoggedBy(t, line, i, r) && AsciiKeys(line) && sample == Read(line, graphic)
    ensures Instant(Some(sample), "t0_ns") == t.handlers[i].body.t0 && Instant(Some(sample), "t6_ns") == Some(r.t6)
    ensures CopiedFrom(Some(sample)) == Columns(t.handlers[i].body, r, graphic)
  {
    ReadStamps(t.policyRef, t.handlers[i].body, r, graphic);
    ReadColumns(t.policyRef, t.handlers[i].body, r, graphic);
  }

  lemma SampleEvent(s: State, acts: seq<Action>, t: State) returns (i: nat, r: Reading)
    requires LogProper(s) && Quiescent(s) && Run(s, acts) == Some(t) && s.log <= t.log
    requires First(Since(s, t), Saying(Revoked)).Some?
    ensures |s.handlers| <= i && LoggedBy(t, First(Since(s, t), Saying(Revoked)).value, i, r)
    ensures AsciiKeys(First(Since(s, t), Saying(Revoked)).value)
  {
    var lines := Since(s, t);
    FirstIsCounted(lines, Saying(Revoked));
    var j :| 0 <= j < |lines| && lines[j] == First(lines, Saying(Revoked)).value;
    assert t.log[|s.log| + j] == lines[j];
    i, r := RevokedLogged(s, acts, t, |s.log| + j);
    LogProperRun(s, acts);
    assert lines[j] in t.log;
  }

  /** How far from tau the row's deny stamps can be, from any part of the prober's text: tau is at or before
      t8; the midpoint is within half the window, rounded up, of tau, plus on one side the overshoot of the
      one call behind the lower edge, so the mid spans are off by no more; and without it if that overshoot
      is within the call's send-to-arrival time. */
  lemma TrialBracket(actuator: seq<Line>, kept: seq<Pairs>, calls: seq<Call>, tau: int, start: Stamp,
      graphic: char -> bool, out: Report) returns (c: Call)
    requires out.Wrote? && IsReport(actuator, ReadLog(PrintLog(kept, graphic)), start, out)
    requires (forall line :: line in kept ==> Probed(line, calls)) && Enforced(calls, tau, out.row.t0)
    ensures out.row.t8.Some? ==> tau <= out.row.t8.value
    ensures out.mid.Some? ==>
              && out.row.t8.Some? && out.row.t8Lo.Some? && c in calls && c.Got(200) && c.Valid()
              && out.row.t8Lo.value == c.start + c.Overshoot()
    ensures out.mid.Some? ==>
              var half := (out.row.t8.value - out.row.t8Lo.value + 1) / 2;
              out.mid.value - half - c.Overshoot() <= tau <= out.mid.value + half
    ensures out.mid.Some? && c.Overshoot() <= c.arrival - c.start ==>
              && out.row.t8Lo.value < tau
              && var half := (out.row.t8.value - out.row.t8Lo.value + 1) / 2;
                 out.mid.value - half <= tau <= out.mid.value + half
  {
    TextDrawn(kept, calls, graphic);
    c := ExactBracketing(calls, ReadLog(PrintLog(kept, graphic)), tau, out.row.t0, out.row.t8, out.t8Lo);
    if out.mid.Some? && c.Overshoot() <= c.arrival - c.start {
      MidpointError(out.t8Lo.value, out.mid.value, out.row.t8.value, tau);
    }
  }

  /** And exactly when the row's bracket holds every tau that explains the statuses of the prober's calls, given
      its whole text: when the bound of the last 200 read is not after the arrival of the last 200. */
  lemma TrialBracketIff(actuator: seq<Line>, calls: seq<Call>, rho: int, tau: int, start: Stamp,
          graphic: char -> bool, out: Report)
    returns (c: Call, k: nat)
    requires Trace(calls) && out.Wrote? && IsReport(actuator, ReadLog(PrintLog(TraceLog(calls), graphic)), start, out)
    requires Explains(calls, rho, tau, out.row.t0) && out.row.t8Lo.Some?
    ensures IsLastRead(calls, c) && IsLastAllowed(calls, k)
    ensures SafeBound(calls, out.row.t0, out.row.t8Lo.value) <==> c.start + c.Overshoot() <= calls[k].arrival
    ensures c == calls[k] ==>
              (SafeBound(calls, out.row.t0, out.row.t8Lo.value) <==> c.Overshoot() <= c.arrival - c.start)
  {
    c, k := TextSafeIff(calls, rho, tau, out.row.t0, out.row.t8.value, out.row.t8Lo.value, graphic);
  }
}
