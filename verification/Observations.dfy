/** The histograms and the log tell the same story, stage by stage and value by value, over every run. */
module Observations {
  import opened Common
  import opened Text
  import opened Logfmt
  import opened Spans
  import opened Rfc3339
  import opened Protocol
  import opened Ledger
  import opened Accounting

  /** The samples of the histogram a stage is observed in. */
  function Hist(s: State, stage: string): seq<(string, int)> {
    if stage == "pipeline" then s.pipeline else s.stages
  }

  /** A `revoked` line whose `<stage>_us` column is `text`. */
  predicate HasColumn(line: Pairs, stage: string, text: string) {
    Says(line) == Some(Revoked) && Lookup(line, UsKey(stage)) == Some(text)
  }

  function ColumnIs(stage: string, text: string): Pairs -> bool {
    (line: Pairs) => HasColumn(line, stage, text)
  }

  /** An event actuated by these clocks shows `text` for the stage. */
  predicate Due(body: Body, o: Outcome, own: Marks, stage: string, text: string) {
    body.Decoded? && o.Revoked? && Lookup(Attrs(ClocksOf(body, own)), UsKey(stage)) == Some(text)
  }

  /** Observed, with the line still to come. */
  predicate Awaits(h: Handler, stage: string, text: string) {
    h.phase.Observed? && Due(h.body, h.phase.o, h.phase.own, stage, text)
  }

  function Awaiting(stage: string, text: string): Handler -> bool {
    (h: Handler) => Awaits(h, stage, text)
  }

  // ---- one step ---------------------------------------------------------

  lemma DueSamples(body: Body, o: Outcome, own: Marks, stage: string, text: string)
    ensures Count(Samples(Actuated(body, o, own), stage == "pipeline"), ShownAs(stage, text))
        == One(Due(body, o, own, stage, text))
  {
    if body.Decoded? && o.Revoked? {
      ColumnIsSample(ClocksOf(body, own), stage, text);
    }
  }

  /** The step feeds the histograms for an event that shows `text`. */
  predicate Feeds(s: State, a: Action, stage: string, text: string)
    requires Enabled(s, a)
  {
    a.Observe? && Due(s.handlers[a.i].body, s.handlers[a.i].phase.o, a.own, stage, text)
  }

  predicate Logs(s: State, a: Action, stage: string, text: string)
    requires Enabled(s, a)
  {
    a.Report? && Awaits(s.handlers[a.i], stage, text)
  }

  lemma HistStep(s: State, a: Action, stage: string, text: string)
    requires Enabled(s, a)
    ensures Count(Hist(Apply(s, a), stage), ShownAs(stage, text))
         == Count(Hist(s, stage), ShownAs(stage, text)) + One(Feeds(s, a, stage, text))
  {
    ObservedStep(s, a);
    var spans := if a.Observe? then Actuated(s.handlers[a.i].body, s.handlers[a.i].phase.o, a.own) else [];
    CountAppend(Hist(s, stage), Samples(spans, stage == "pipeline"), ShownAs(stage, text));
    if a.Observe? {
      DueSamples(s.handlers[a.i].body, s.handlers[a.i].phase.o, a.own, stage, text);
    }
  }

  lemma AwaitStep(s: State, a: Action, stage: string, text: string)
    requires Enabled(s, a)
    ensures Count(Apply(s, a).handlers, Awaiting(stage, text)) + One(Logs(s, a, stage, text))
         == Count(s.handlers, Awaiting(stage, text)) + One(Feeds(s, a, stage, text))
  {
    CountStep(s, a, Awaiting(stage, text));
    if Mover(a).Some? {
      AwaitPhase(s, a, Mover(a).value);
    }
  }

  lemma AwaitPhase(s: State, a: Action, i: nat)
    requires Enabled(s, a) && Mover(a) == Some(i)
    ensures Apply(s, a).handlers[i].phase.Observed? <==> a.Observe?
    ensures s.handlers[i].phase.Observed? <==> a.Report?
    ensures a.Observe? ==> Apply(s, a).handlers[i] == s.handlers[i].(phase := Observed(s.handlers[i].phase.o, a.own))
  {}

  lemma LineShows(policyRef: string, h: Handler, r: Reading, stage: string, text: string)
    requires h.phase.Observed? && h.phase.own == r.Own() && InRange(r.time) && (h.body.Garbled? ==> h.phase.o.Failed?)
    ensures HasColumn(OutcomeLine(policyRef, h.body, h.phase.o, r), stage, text) <==> Awaits(h, stage, text)
  {
    OutcomeLineSays(policyRef, h.body, h.phase.o, r);
    if h.phase.o.Revoked? {
      assert UsKey(stage)[|stage|] == '_';
      AnswerLine(policyRef, h.body, h.phase.o, r, UsKey(stage));
    }
  }

  lemma ColumnStep(s: State, a: Action, stage: string, text: string)
    requires Enabled(s, a) && Formed(s)
    ensures Count(Apply(s, a).log, ColumnIs(stage, text))
        == Count(s.log, ColumnIs(stage, text)) + One(Logs(s, a, stage, text))
  {
    LogStep(s, a);
    if a.Report? {
      var h := s.handlers[a.i];
      assert h in s.handlers;
      LineShows(s.policyRef, h, a.reading, stage, text);
      CountSnoc(s.log, OutcomeLine(s.policyRef, h.body, h.phase.o, a.reading), ColumnIs(stage, text));
    } else if a.Noise? {
      CountSnoc(s.log, a.line, ColumnIs(stage, text));
    } else {
      assert s.log + [] == s.log;
    }
  }

  // ---- whole runs -------------------------------------------------------

  /** Samples of a value, lines that show it, and handlers whose line is due move together. */
  lemma {:induction false} StageRun(s: State, acts: seq<Action>, stage: string, text: string)
    requires Formed(s) && Run(s, acts).Some?
    ensures var t := Run(s, acts).value;
            Count(Hist(t, stage), ShownAs(stage, text)) - Count(Hist(s, stage), ShownAs(stage, text)) ==
            Count(t.log, ColumnIs(stage, text)) - Count(s.log, ColumnIs(stage, text))
            + Count(t.handlers, Awaiting(stage, text)) - Count(s.handlers, Awaiting(stage, text))
  {
    if acts == [] {
    } else {
      var init, a := acts[..|acts| - 1], acts[|acts| - 1];
      StageRun(s, init, stage, text);
      FormedRun(s, init);
      var m := Run(s, init).value;
      HistStep(m, a, stage, text);
      AwaitStep(m, a, stage, text);
      ColumnStep(m, a, stage, text);
    }
  }

  /** Between two quiescent points of any run, for every stage and every value, the stage's histogram gained
      exactly as many samples of that value as `revoked` lines were logged with it in the stage's column. */
  lemma StageSamplesMatchLog(s: State, acts: seq<Action>, t: State, stage: string, text: string)
    requires Formed(s) && Quiescent(s) && Run(s, acts) == Some(t) && Quiescent(t)
    ensures s.log <= t.log
    ensures Count(Hist(t, stage), ShownAs(stage, text)) - Count(Hist(s, stage), ShownAs(stage, text))
         == Count(Since(s, t), ColumnIs(stage, text))
  {
    AccountingRun(s, acts, Revoked);
    StageRun(s, acts, stage, text);
    CountZero(s.handlers, Awaiting(stage, text));
    CountZero(t.handlers, Awaiting(stage, text));
    assert t.log == s.log + Since(s, t);
    CountAppend(s.log, Since(s, t), ColumnIs(stage, text));
  }
}
