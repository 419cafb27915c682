/** Every SET is counted once, under one outcome, and the log tells the same story as the counters. */
module Accounting {
  import opened Common
  import Json
  import opened Logfmt
  import opened Spans
  import opened Rfc3339
  import opened Protocol
  import opened Ledger

  /** The counter has been bumped for this handler, under `o`. */
  predicate Accounted(phase: Phase, o: Outcome) {
    phase == Counted(o) || (phase.Observed? && phase.o == o) || phase == Done(o)
  }

  function IsAccounted(o: Outcome): Handler -> bool {
    (h: Handler) => Accounted(h.phase, o)
  }

  /** Counted, but its line is not out yet. */
  function IsUnlogged(o: Outcome): Handler -> bool {
    (h: Handler) => h.phase == Counted(o) || (h.phase.Observed? && h.phase.o == o)
  }

  function Saying(o: Outcome): Pairs -> bool {
    (line: Pairs) => Says(line) == Some(o)
  }

  /** The histograms have been fed a pipeline sample for this handler. */
  predicate Sampling(h: Handler) {
    ((h.phase.Observed? && h.phase.o == Revoked) || h.phase == Done(Revoked)) && Sampled(h.body, Revoked)
  }

  predicate SampledUnlogged(h: Handler) {
    h.phase.Observed? && h.phase.o == Revoked && Sampled(h.body, Revoked)
  }

  /** A latency sample's line that carries the pipeline span. */
  predicate PipelineLine(line: Pairs) {
    Says(line) == Some(Revoked) && Lookup(line, "pipeline_us").Some?
  }

  /** An undecodable SET can only end as failed. */
  predicate Formed(s: State) {
    forall h :: h in s.handlers ==> h.body.Garbled? ==> Settled(h.phase, Failed)
  }

  lemma FormedStep(s: State, a: Action)
    requires Enabled(s, a) && Formed(s)
    ensures Formed(Apply(s, a))
  {
    CountStep(s, a, IsAccounted(Failed));
    if Mover(a).Some? {
      SettledStep(s, a, Failed);
      assert s.handlers[Mover(a).value] in s.handlers;
    } else if a.Receive? {
      assert Apply(s, a).handlers == s.handlers + [Apply(s, a).handlers[|s.handlers|]];
    }
  }

  lemma {:induction false} FormedRun(s: State, acts: seq<Action>)
    requires Formed(s) && Run(s, acts).Some?
    ensures Formed(Run(s, acts).value)
  {
    if acts == [] {
    } else {
      FormedRun(s, acts[..|acts| - 1]);
      FormedStep(Run(s, acts[..|acts| - 1]).value, acts[|acts| - 1]);
    }
  }

  // ---- what an outcome line says ----------------------------------------

  lemma NoSuchSpan(c: Clocks, k: string)
    requires k == "result" || k == "msg" || k == "time"
    ensures Lookup(Attrs(c), k).None?
  {
    AttrsKeys(c, k);
    LookupHasKey(Attrs(c), k);
    forall i | 0 <= i < |SpanTable(c)| ensures UsKey(SpanTable(c)[i].stage) != k {
      assert UsKey(SpanTable(c)[i].stage)[|UsKey(SpanTable(c)[i].stage)| - 1] == 's';
    }
  }

  lemma PipelineKey(c: Clocks)
    ensures Lookup(Attrs(c), "pipeline_us").Some? <==> c.t0.Some? && c.t6.Some?
  {
    AttrsKeys(c, "pipeline_us");
    LookupHasKey(Attrs(c), "pipeline_us");
    var t := SpanTable(c);
    assert UsKey(t[4].stage) == "pipeline_us";
    assert UsKey(t[0].stage)[0] == 'd' && UsKey(t[1].stage)[0] == 't' && UsKey(t[2].stage)[0] == 't'
        && UsKey(t[3].stage)[0] == 'a';
  }

  lemma LookupStamped(r: Reading, level: string, msg: string, k: string)
    requires InRange(r.time)
    ensures Lookup(Stamped(r, level, msg), k)
         == if k == "msg" then Some(msg) else if k == "level" then Some(level)
            else if k == "time" then Some(Format(r.time)) else None
  {
    LookupThree(("time", Format(r.time)), ("level", level), ("msg", msg), k);
  }

  lemma LookupAnswer(jti: string, subject: string, policy: string, result: string, k: string)
    ensures Lookup([("jti", jti), ("subject", subject), ("policy", policy), ("result", result)], k)
         == if k == "result" then Some(result) else if k == "policy" then Some(policy)
            else if k == "subject" then Some(subject) else if k == "jti" then Some(jti) else None
  {
    var a, b, c, d := ("jti", jti), ("subject", subject), ("policy", policy), ("result", result);
    LookupSnoc([a, b, c], d, k);
    LookupThree(a, b, c, k);
    assert [a, b, c] + [d] == [a, b, c, d];
  }

  lemma HeadAnswer(r: Reading, msg: string, jti: string, subject: string, policy: string, result: string, k: string)
    requires InRange(r.time) && (k == "result" || k == "time" || '_' in k)
    ensures Lookup(Stamped(r, "INFO", msg)
                   + [("jti", jti), ("subject", subject), ("policy", policy), ("result", result)], k)
         == if k == "result" then Some(result) else if k == "time" then Some(Format(r.time)) else None
  {
    var answer := [("jti", jti), ("subject", subject), ("policy", policy), ("result", result)];
    LookupAppend(Stamped(r, "INFO", msg), answer, k);
    LookupStamped(r, "INFO", msg, k);
    LookupAnswer(jti, subject, policy, result, k);
  }

  lemma AnswerLine(policyRef: string, body: Body, o: Outcome, r: Reading, k: string)
    requires InRange(r.time) && body.Decoded? && !o.Failed?
    requires k == "result" || k == "time" || '_' in k
    ensures Lookup(OutcomeLine(policyRef, body, o, r), k)
         == if k == "result" then Some(ResultText(o)) else if k == "time" then Some(Format(r.time))
            else Lookup(Attrs(ClocksOf(body, r.Own())), k)
  {
    var msg := if o.Revoked? then ACTUATED else SKIPPED;
    var head := Stamped(r, "INFO", msg);
    var answer := [("jti", body.jti), ("subject", body.subject), ("policy", policyRef), ("result", ResultText(o))];
    var c := ClocksOf(body, r.Own());
    LookupAppend(head + answer, Attrs(c), k);
    HeadAnswer(r, msg, body.jti, body.subject, policyRef, ResultText(o), k);
    if '_' !in k {
      NoSuchSpan(c, k);
    }
  }

  lemma FailureLine(r: Reading, msg: string, rest: Pairs, k: string)
    requires InRange(r.time)
    requires forall i :: 0 <= i < |rest| ==> rest[i].0 == "error" || rest[i].0 == "subject" || rest[i].0 == "jti"
    requires k == "result" || k == "time" || k == "msg"
    ensures Lookup(Stamped(r, "ERROR", msg) + rest, k)
         == if k == "time" then Some(Format(r.time)) else if k == "msg" then Some(msg) else None
  {
    LookupAppend(Stamped(r, "ERROR", msg), rest, k);
    LookupStamped(r, "ERROR", msg, k);
    LookupHasKey(rest, k);
  }

  /** The line a handler logs says its own outcome, at its own time, with the pipeline span exactly when sampled. */
  lemma OutcomeLineSays(policyRef: string, body: Body, o: Outcome, r: Reading)
    requires InRange(r.time) && (body.Garbled? ==> o.Failed?)
    ensures var line := OutcomeLine(policyRef, body, o, r);
            && Says(line) == Some(o) && Lookup(line, "time") == Some(Format(r.time))
            && (o.Revoked? ==> (PipelineLine(line) <==> Sampled(body, o)))
  {
    if body.Decoded? && !o.Failed? {
      AnswerLine(policyRef, body, o, r, "result");
      AnswerLine(policyRef, body, o, r, "time");
      assert "pipeline_us"[8] == '_';
      AnswerLine(policyRef, body, o, r, "pipeline_us");
      PipelineKey(ClocksOf(body, r.Own()));
    } else {
      var msg := if body.Decoded? then NOT_ACTUATED else NOT_DECODED;
      var rest := if body.Decoded? then [("error", r.error), ("subject", body.subject), ("jti", body.jti)]
                  else [("error", r.error)];
      FailureLine(r, msg, rest, "result");
      FailureLine(r, msg, rest, "time");
      FailureLine(r, msg, rest, "msg");
    }
  }

  // ---- one step ---------------------------------------------------------

  lemma CounterStep(s: State, a: Action, o: Outcome)
    requires Enabled(s, a)
    ensures Apply(s, a).counts.Of(o) == s.counts.Of(o) + One(a.Bump? && s.handlers[a.i].phase.o == o)
  {}

  lemma AccountedPhase(s: State, a: Action, o: Outcome)
    requires Enabled(s, a) && Mover(a).Some?
    ensures var i := Mover(a).value;
            && (Accounted(Apply(s, a).handlers[i].phase, o)
                <==> Accounted(s.handlers[i].phase, o) || (a.Bump? && s.handlers[i].phase.o == o))
            && (a.Bump? ==> !Accounted(s.handlers[i].phase, o))
  {}

  lemma AccountedStep(s: State, a: Action, o: Outcome)
    requires Enabled(s, a)
    ensures Count(Apply(s, a).handlers, IsAccounted(o))
         == Count(s.handlers, IsAccounted(o)) + One(a.Bump? && s.handlers[a.i].phase.o == o)
  {
    CountStep(s, a, IsAccounted(o));
    if Mover(a).Some? {
      AccountedPhase(s, a, o);
    }
  }

  lemma LogStep(s: State, a: Action)
    requires Enabled(s, a)
    ensures Apply(s, a).log == s.log
              + if a.Report? then [OutcomeLine(s.policyRef, s.handlers[a.i].body, s.handlers[a.i].phase.o, a.reading)]
                else if a.Noise? then [a.line] else []
  {}

  lemma SayingStep(s: State, a: Action, o: Outcome)
    requires Enabled(s, a) && Formed(s)
    ensures Count(Apply(s, a).log, Saying(o))
        == Count(s.log, Saying(o)) + One(a.Report? && s.handlers[a.i].phase.o == o)
  {
    LogStep(s, a);
    if a.Report? {
      var h := s.handlers[a.i];
      OutcomeLineSays(s.policyRef, h.body, h.phase.o, a.reading);
      CountSnoc(s.log, OutcomeLine(s.policyRef, h.body, h.phase.o, a.reading), Saying(o));
    } else if a.Noise? {
      CountSnoc(s.log, a.line, Saying(o));
    } else {
      assert s.log + [] == s.log;
    }
  }

  lemma UnloggedStep(s: State, a: Action, o: Outcome)
    requires Enabled(s, a)
    ensures Count(Apply(s, a).handlers, IsUnlogged(o)) + One(a.Report? && s.handlers[a.i].phase.o == o)
         == Count(s.handlers, IsUnlogged(o)) + One(a.Bump? && s.handlers[a.i].phase.o == o)
  {
    CountStep(s, a, IsUnlogged(o));
    if Mover(a).Some? {
      UnloggedPhase(s, a, o);
    }
  }

  lemma UnloggedPhase(s: State, a: Action, o: Outcome)
    requires Enabled(s, a) && Mover(a).Some?
    ensures var i := Mover(a).value;
            One(IsUnlogged(o)(Apply(s, a).handlers[i])) + One(a.Report? && s.handlers[i].phase.o == o) ==
            One(IsUnlogged(o)(s.handlers[i])) + One(a.Bump? && s.handlers[i].phase.o == o)
  {}

  lemma SampleStep(s: State, a: Action)
    requires Enabled(s, a)
    ensures |Apply(s, a).pipeline| + Count(s.handlers, Sampling) == |s.pipeline| + Count(Apply(s, a).handlers, Sampling)
  {
    CountStep(s, a, Sampling);
    ObservedStep(s, a);
  }

  /** What a step adds to the histograms. */
  lemma ObservedStep(s: State, a: Action)
    requires Enabled(s, a)
    ensures var spans := if a.Observe? then Actuated(s.handlers[a.i].body, s.handlers[a.i].phase.o, a.own) else [];
            && Apply(s, a).stages == s.stages + Samples(spans, false)
            && Apply(s, a).pipeline == s.pipeline + Samples(spans, true)
            && |Samples(spans, true)| == One(a.Observe? && Sampled(s.handlers[a.i].body, s.handlers[a.i].phase.o))
  {
    if a.Observe? && s.handlers[a.i].body.Decoded? {
      PipelineSamples(ClocksOf(s.handlers[a.i].body, a.own));
    }
  }

  lemma PipelineLineStep(s: State, a: Action)
    requires Enabled(s, a) && Formed(s)
    ensures Count(Apply(s, a).log, PipelineLine) == Count(s.log, PipelineLine)
            + One(a.Report? && SampledUnlogged(s.handlers[a.i]))
  {
    LogStep(s, a);
    if a.Report? {
      var h := s.handlers[a.i];
      OutcomeLineSays(s.policyRef, h.body, h.phase.o, a.reading);
      LineTotals(s.log, OutcomeLine(s.policyRef, h.body, h.phase.o, a.reading));
    } else if a.Noise? {
      LineTotals(s.log, a.line);
    } else {
      assert s.log + [] == s.log;
    }
  }

  lemma LineTotals(log: seq<Pairs>, line: Pairs)
    ensures Count(log + [line], PipelineLine) == Count(log, PipelineLine) + One(PipelineLine(line))
  {
    CountSnoc(log, line, PipelineLine);
  }

  lemma PipelineStep(s: State, a: Action)
    requires Enabled(s, a) && Formed(s)
    ensures Count(Apply(s, a).log, PipelineLine) + Count(Apply(s, a).handlers, SampledUnlogged) + |s.pipeline|
         == Count(s.log, PipelineLine) + Count(s.handlers, SampledUnlogged) + |Apply(s, a).pipeline|
  {
    CountStep(s, a, SampledUnlogged);
    ObservedStep(s, a);
    PipelineLineStep(s, a);
  }

  // ---- whole runs -------------------------------------------------------

  /** Between any two points of a run, each counter, the handlers accounted under it, and the log
      lines that say it move together. */
  lemma {:induction false} AccountingRun(s: State, acts: seq<Action>, o: Outcome)
    requires Formed(s) && Run(s, acts).Some?
    ensures var t := Run(s, acts).value;
            && Formed(t) && s.log <= t.log
            && t.counts.Of(o) + Count(s.handlers, IsAccounted(o)) == s.counts.Of(o) + Count(t.handlers, IsAccounted(o))
            && Count(t.log, Saying(o)) + Count(t.handlers, IsUnlogged(o)) + s.counts.Of(o)
            == Count(s.log, Saying(o)) + Count(s.handlers, IsUnlogged(o)) + t.counts.Of(o)
  {
    if acts == [] {
    } else {
      var init, a := acts[..|acts| - 1], acts[|acts| - 1];
      AccountingRun(s, init, o);
      var m := Run(s, init).value;
      FormedStep(m, a);
      CounterStep(m, a, o);
      AccountedStep(m, a, o);
      LogStep(m, a);
      SayingStep(m, a, o);
      UnloggedStep(m, a, o);
    }
  }

  lemma {:induction false} SamplesRun(s: State, acts: seq<Action>)
    requires Formed(s) && Run(s, acts).Some?
    ensures var t := Run(s, acts).value;
            && |t.pipeline| + Count(s.handlers, Sampling) == |s.pipeline| + Count(t.handlers, Sampling)
            && Count(t.log, PipelineLine) + Count(t.handlers, SampledUnlogged) + |s.pipeline|
            == Count(s.log, PipelineLine) + Count(s.handlers, SampledUnlogged) + |t.pipeline|
  {
    if acts == [] {
    } else {
      var init, a := acts[..|acts| - 1], acts[|acts| - 1];
      SamplesRun(s, init);
      FormedRun(s, init);
      SampleStep(Run(s, init).value, a);
      PipelineStep(Run(s, init).value, a);
    }
  }

  /** The lines a run added to the log. */
  function Since(s: State, t: State): seq<Pairs>
    requires s.log <= t.log
  {
    t.log[|s.log|..]
  }

  /** Between two quiescent points of any run the counters moved by exactly what the log lines in
      between say, outcome by outcome. */
  lemma CountersMatchLog(s: State, acts: seq<Action>, t: State, o: Outcome)
    requires Formed(s) && Quiescent(s) && Run(s, acts) == Some(t) && Quiescent(t)
    ensures s.log <= t.log
    ensures t.counts.Of(o) - s.counts.Of(o) == Count(Since(s, t), Saying(o))
  {
    AccountingRun(s, acts, o);
    CountZero(s.handlers, IsUnlogged(o));
    CountZero(t.handlers, IsUnlogged(o));
    assert t.log == s.log + Since(s, t);
    CountAppend(s.log, Since(s, t), Saying(o));
  }

  /** The pipeline histogram has one sample per `revoked` event with a known T0, and one per `revoked`
      log line that carries the pipeline span. */
  lemma SamplesMatchLog(s: State, acts: seq<Action>, t: State)
    requires Formed(s) && Quiescent(s) && Run(s, acts) == Some(t) && Quiescent(t)
    ensures s.log <= t.log
    ensures |t.pipeline| - |s.pipeline| == Count(t.handlers, Sampling) - Count(s.handlers, Sampling)
    ensures |t.pipeline| - |s.pipeline| == Count(Since(s, t), PipelineLine)
  {
    AccountingRun(s, acts, Revoked);
    SamplesRun(s, acts);
    CountZero(s.handlers, SampledUnlogged);
    CountZero(t.handlers, SampledUnlogged);
    assert t.log == s.log + Since(s, t);
    CountAppend(s.log, Since(s, t), PipelineLine);
  }

  lemma {:induction false} AccountedTotal(hs: seq<Handler>)
    requires forall h :: h in hs ==> h.phase.Done?
    ensures Count(hs, IsAccounted(Revoked)) + Count(hs, IsAccounted(Deduped)) + Count(hs, IsAccounted(Failed)) == |hs|
  {
    if hs == [] {
    } else {
      AccountedTotal(hs[..|hs| - 1]);
      var h := hs[|hs| - 1];
      assert h in hs;
      assert IsAccounted(h.phase.o)(h);
      assert forall o :: o != h.phase.o ==> !IsAccounted(o)(h);
    }
  }

  /** Every SET that reached the handler lands in exactly one counter. */
  lemma EachCountedOnce(seed: Json.Json, policyRef: string, acts: seq<Action>, s: State)
    requires Run(Init(seed, policyRef), acts) == Some(s) && Quiescent(s)
    ensures s.counts.revoked + s.counts.deduped + s.counts.failed == |s.handlers|
    ensures forall o :: s.counts.Of(o) == Count(s.handlers, IsAccounted(o))
  {
    forall o: Outcome ensures s.counts.Of(o) == Count(s.handlers, IsAccounted(o)) {
      AccountingRun(Init(seed, policyRef), acts, o);
    }
    AccountedTotal(s.handlers);
    assert s.counts.Of(Revoked) == s.counts.revoked && s.counts.Of(Deduped) == s.counts.deduped
        && s.counts.Of(Failed) == s.counts.failed;
  }
}
