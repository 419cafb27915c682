/** The span table shared by the log line and the histograms (cmd/actuator/metrics.go,
    `pipelineSpans` of cmd/actuator/main.go). A clock is None when its stamp is the zero
    time; durations are unbounded integers of nanoseconds. */
module Spans {
  import opened Common
  import opened Text
  import opened Logfmt

  type Clock = Option<int>

  datatype Clocks = Clocks(t0: Clock, t1: Clock, t3: Clock, t4: Clock, t5: Clock, t6: Clock)

  datatype Span = Span(stage: string, start: Clock, stop: Clock) {
    predicate Known() {
      start.Some? && stop.Some?
    }

    function Duration(): int
      requires Known()
    {
      stop.value - start.value
    }
  }

  /** `nsToTime`: zero means the stamp is absent. */
  function NsToTime(ns: int): Clock {
    if ns == 0 then None else Some(ns)
  }

  predicate IsInt64(n: int) {
    -0x8000_0000_0000_0000 <= n < 0x8000_0000_0000_0000
  }

  /** strconv.ParseInt in base 10 and 64 bits; None for its error. */
  function ParseInt(s: string): Option<int> {
    var digits := if s != "" && (s[0] == '-' || s[0] == '+') then s[1..] else s;
    if digits == "" || !AllDigits(digits) then None
    else
      var n := if s[0] == '-' then -(Value(digits) as int) else Value(digits);
      if IsInt64(n) then Some(n) else None
  }

  /** `headerTime`: a missing header reads as the empty text. */
  function HeaderTime(text: string): Clock {
    match ParseInt(text) case None => None case Some(n) => NsToTime(n)
  }

  /** What the translator's strconv.FormatInt puts in a header, the actuator reads; zero is an absent stamp. */
  lemma HeaderRoundTrip(n: int)
    requires IsInt64(n)
    ensures HeaderTime(IntText(n)) == if n == 0 then None else Some(n)
  {
    IntPrinted(n);
  }

  lemma IntPrinted(n: int)
    requires IsInt64(n)
    ensures ParseInt(IntText(n)) == Some(n)
  {
    var d := Decimal(if n < 0 then -n else n);
    DecimalValue(if n < 0 then -n else n);
    if n < 0 {
      ParseNegative(d);
    } else {
      assert IsDigit(d[0]);
    }
  }

  /** A header is a stamp exactly when it is a sign, if any, and digits that make a 64-bit number other than
      zero: not when it is missing. */
  lemma HeaderReads(text: string, n: int)
    ensures HeaderTime(text) == Some(n)
        <==> && n != 0 && -9_223_372_036_854_775_808 <= n <= 9_223_372_036_854_775_807
             && exists digits :: digits != "" && AllDigits(digits)
                                 && ((n == Value(digits) && (text == digits || text == "+" + digits))
                                     || (n == 0 - Value(digits) && text == "-" + digits))
  {
    if HeaderTime(text) == Some(n) {
      var digits := if text[0] == '-' || text[0] == '+' then text[1..] else text;
      assert text == digits || text == [text[0]] + digits;
    }
    if digits :| digits != "" && AllDigits(digits)
                 && ((n == Value(digits) && (text == digits || text == "+" + digits))
                     || (n == 0 - Value(digits) && text == "-" + digits)) {
      assert text == digits || text[1..] == digits;
      assert IsDigit(digits[0]);
    }
  }

  lemma NoHeader()
    ensures HeaderTime("") == None && HeaderTime("0") == None
  {
    assert Value("0") == 0;
  }

  lemma ParseNegative(d: string)
    requires d != "" && AllDigits(d) && IsInt64(0 - Value(d))
    ensures ParseInt("-" + d) == Some(0 - Value(d))
  {
    assert ("-" + d)[1..] == d;
  }

  /** Go's integer division, truncating toward zero. */
  function Truncate(a: int, b: int): int
    requires b > 0
  {
    if a >= 0 then a / b else -((-a) / b)
  }

  function Micros(ns: int): int {
    Truncate(ns, 1000)
  }

  function SpanTable(c: Clocks): seq<Span> {
    [ Span("detect", c.t0, c.t1),
      Span("translate", c.t1, c.t3),
      Span("transport", c.t3, c.t4),
      Span("actuate", c.t5, c.t6),
      Span("pipeline", c.t0, c.t6) ]
  }

  function StampTable(c: Clocks): seq<(string, Clock)> {
    [("t0_ns", c.t0), ("t1_ns", c.t1), ("t3_ns", c.t3), ("t4_ns", c.t4), ("t5_ns", c.t5), ("t6_ns", c.t6)]
  }

  /** The known stamps as attributes, in table order. */
  function StampAttrs(stamps: seq<(string, Clock)>): Pairs {
    if stamps == [] then []
    else
      var s := stamps[|stamps| - 1];
      StampAttrs(stamps[..|stamps| - 1]) + if s.1.Some? then [(s.0, IntText(s.1.value))] else []
  }

  function UsKey(stage: string): string {
    stage + "_us"
  }

  /** The known spans as attributes, in table order. */
  function SpanAttrs(spans: seq<Span>): Pairs {
    if spans == [] then []
    else
      var s := spans[|spans| - 1];
      SpanAttrs(spans[..|spans| - 1]) + if s.Known() then [(UsKey(s.stage), IntText(Micros(s.Duration())))] else []
  }

  function Attrs(c: Clocks): Pairs {
    StampAttrs(StampTable(c)) + SpanAttrs(SpanTable(c))
  }

  /** The samples one actuated event adds: those of `stages`, or of the pipeline histogram. */
  function Samples(spans: seq<Span>, pipeline: bool): seq<(string, int)> {
    if spans == [] then []
    else
      var s := spans[|spans| - 1];
      Samples(spans[..|spans| - 1], pipeline) +
      if s.Known() && (s.stage == "pipeline") == pipeline then [(s.stage, s.Duration())] else []
  }

  /** `pipelineSpans`. */
  method PipelineSpans(c: Clocks) returns (attrs: Pairs)
    ensures attrs == Attrs(c)
  {
    var stamps, spans := StampTable(c), SpanTable(c);
    attrs := [];
    for i := 0 to |stamps|
      invariant attrs == StampAttrs(stamps[..i])
    {
      assert stamps[..i + 1][..i] == stamps[..i];
      if stamps[i].1.Some? {
        attrs := attrs + [(stamps[i].0, IntText(stamps[i].1.value))];
      }
    }
    assert stamps[..|stamps|] == stamps;
    for i := 0 to |spans|
      invariant attrs == StampAttrs(stamps) + SpanAttrs(spans[..i])
    {
      assert spans[..i + 1][..i] == spans[..i];
      if spans[i].Known() {
        attrs := attrs + [(UsKey(spans[i].stage), IntText(Micros(spans[i].Duration())))];
      }
    }
    assert spans[..|spans|] == spans;
  }

  /** The two histograms, as the samples observed so far. */
  class Histograms {
    var stages: seq<(string, int)>
    var pipeline: seq<(string, int)>

    constructor ()
      ensures stages == [] && pipeline == []
    {
      stages, pipeline := [], [];
    }

    /** `observeSpans`. */
    method ObserveSpans(c: Clocks)
      modifies this
      ensures stages == old(stages) + Samples(SpanTable(c), false)
      ensures pipeline == old(pipeline) + Samples(SpanTable(c), true)
    {
      var spans := SpanTable(c);
      for i := 0 to |spans|
        invariant stages == old(stages) + Samples(spans[..i], false)
        invariant pipeline == old(pipeline) + Samples(spans[..i], true)
      {
        assert spans[..i + 1][..i] == spans[..i];
        if !spans[i].Known() {
          continue;
        }
        if spans[i].stage == "pipeline" {
          pipeline := pipeline + [(spans[i].stage, spans[i].Duration())];
          continue;
        }
        stages := stages + [(spans[i].stage, spans[i].Duration())];
      }
      assert spans[..|spans|] == spans;
    }
  }

  // ---- proofs -----------------------------------------------------------

  predicate HasKey(ps: Pairs, k: string) {
    exists i :: 0 <= i < |ps| && ps[i].0 == k
  }

  lemma {:induction false} LookupHasKey(ps: Pairs, k: string)
    ensures Lookup(ps, k).Some? <==> HasKey(ps, k)
  {
    if ps == [] {
    } else {
      LookupHasKey(ps[..|ps| - 1], k);
      if HasKey(ps, k) && ps[|ps| - 1].0 != k {
        var i :| 0 <= i < |ps| && ps[i].0 == k;
        assert ps[..|ps| - 1][i].0 == k;
      }
      if HasKey(ps[..|ps| - 1], k) {
        var i :| 0 <= i < |ps| - 1 && ps[..|ps| - 1][i].0 == k;
        assert ps[i].0 == k;
      }
    }
  }

  lemma {:induction false} SpanAttrsKeys(spans: seq<Span>, k: string)
    ensures HasKey(SpanAttrs(spans), k)
        <==> exists i :: 0 <= i < |spans| && spans[i].Known() && UsKey(spans[i].stage) == k
  {
    if spans == [] {
    } else {
      var init, s := spans[..|spans| - 1], spans[|spans| - 1];
      SpanAttrsKeys(init, k);
      var a, b := SpanAttrs(init), SpanAttrs(spans);
      if HasKey(a, k) {
        var i :| 0 <= i < |a| && a[i].0 == k;
        assert b[i].0 == k;
        var j :| 0 <= j < |init| && init[j].Known() && UsKey(init[j].stage) == k;
        assert spans[j].Known();
      }
      if s.Known() && UsKey(s.stage) == k {
        assert b[|a|].0 == k;
      }
      if HasKey(b, k) {
        var i :| 0 <= i < |b| && b[i].0 == k;
        if i < |a| {
          assert a[i].0 == k;
        }
      }
      if j :| 0 <= j < |spans| && spans[j].Known() && UsKey(spans[j].stage) == k {
        assert j < |init| ==> init[j].Known() && UsKey(init[j].stage) == k;
      }
    }
  }

  predicate HasSample(xs: seq<(string, int)>, stage: string) {
    exists i :: 0 <= i < |xs| && xs[i].0 == stage
  }

  lemma {:induction false} SampleStages(spans: seq<Span>, pipeline: bool, stage: string)
    ensures HasSample(Samples(spans, pipeline), stage)
        <==> (stage == "pipeline") == pipeline
             && exists i :: 0 <= i < |spans| && spans[i].Known() && spans[i].stage == stage
  {
    if spans == [] {
    } else {
      var init, s := spans[..|spans| - 1], spans[|spans| - 1];
      SampleStages(init, pipeline, stage);
      var a, b := Samples(init, pipeline), Samples(spans, pipeline);
      if HasSample(a, stage) {
        var i :| 0 <= i < |a| && a[i].0 == stage;
        assert b[i].0 == stage;
        var j :| 0 <= j < |init| && init[j].Known() && init[j].stage == stage;
        assert spans[j].Known();
      }
      if s.Known() && s.stage == stage && (stage == "pipeline") == pipeline {
        assert b[|a|].0 == stage;
      }
      if HasSample(b, stage) {
        var i :| 0 <= i < |b| && b[i].0 == stage;
        if i < |a| {
          assert a[i].0 == stage;
        }
      }
      if j :| 0 <= j < |spans| && spans[j].Known() && spans[j].stage == stage {
        assert j < |init| ==> init[j].Known() && init[j].stage == stage;
      }
    }
  }

  lemma {:induction false} StampAttrsKeys(stamps: seq<(string, Clock)>, k: string)
    requires forall i :: 0 <= i < |stamps| ==> stamps[i].0 != k
    ensures forall i :: 0 <= i < |StampAttrs(stamps)| ==> StampAttrs(stamps)[i].0 != k
  {
    if stamps == [] {
    } else {
      StampAttrsKeys(stamps[..|stamps| - 1], k);
      var a := StampAttrs(stamps[..|stamps| - 1]);
      forall i | 0 <= i < |StampAttrs(stamps)| ensures StampAttrs(stamps)[i].0 != k {
        if i < |a| {
          assert a[i].0 != k;
        }
      }
    }
  }

  lemma AttrsKeys(c: Clocks, k: string)
    requires k !in ["t0_ns", "t1_ns", "t3_ns", "t4_ns", "t5_ns", "t6_ns"]
    ensures HasKey(Attrs(c), k)
        <==> exists i :: 0 <= i < |SpanTable(c)| && SpanTable(c)[i].Known() && UsKey(SpanTable(c)[i].stage) == k
  {
    var a, b := StampAttrs(StampTable(c)), SpanAttrs(SpanTable(c));
    StampAttrsKeys(StampTable(c), k);
    SpanAttrsKeys(SpanTable(c), k);
    if HasKey(b, k) {
      var i :| 0 <= i < |b| && b[i].0 == k;
      assert Attrs(c)[|a| + i].0 == k;
    }
    if HasKey(Attrs(c), k) {
      var i :| 0 <= i < |Attrs(c)| && Attrs(c)[i].0 == k;
      assert (a + b)[i].0 == k;
      assert i >= |a|;
      assert b[i - |a|].0 == k;
    }
  }

  lemma {:induction false} StampLookup(stamps: seq<(string, Clock)>, k: nat)
    requires k < |stamps| && forall i, j :: 0 <= i < j < |stamps| ==> stamps[i].0 != stamps[j].0
    ensures Lookup(StampAttrs(stamps), stamps[k].0)
         == if stamps[k].1.Some? then Some(IntText(stamps[k].1.value)) else None
  {
    var init, last := stamps[..|stamps| - 1], stamps[|stamps| - 1];
    var key := stamps[k].0;
    if k < |init| {
      StampLookup(init, k);
      assert init[k] == stamps[k];
    } else {
      StampAttrsKeys(init, key);
      LookupHasKey(StampAttrs(init), key);
    }
    if last.1.Some? {
      LookupSnoc(StampAttrs(init), (last.0, IntText(last.1.value)), key);
    } else {
      assert StampAttrs(stamps) == StampAttrs(init);
    }
  }

  lemma {:induction false} SpanLookup(spans: seq<Span>, k: nat)
    requires k < |spans| && forall i, j :: 0 <= i < j < |spans| ==> UsKey(spans[i].stage) != UsKey(spans[j].stage)
    ensures Lookup(SpanAttrs(spans), UsKey(spans[k].stage))
         == if spans[k].Known() then Some(IntText(Micros(spans[k].Duration()))) else None
  {
    var init, last := spans[..|spans| - 1], spans[|spans| - 1];
    var key := UsKey(spans[k].stage);
    if k < |init| {
      SpanLookup(init, k);
      assert init[k] == spans[k];
    } else {
      SpanAttrsKeys(init, key);
      LookupHasKey(SpanAttrs(init), key);
      assert forall i :: 0 <= i < |init| ==> init[i] == spans[i];
    }
    if last.Known() {
      LookupSnoc(SpanAttrs(init), (UsKey(last.stage), IntText(Micros(last.Duration()))), key);
    } else {
      assert SpanAttrs(spans) == SpanAttrs(init);
    }
  }

  /** Log line and histograms cover the same spans: a `<stage>_us` column is logged exactly when
      an actuated event with those clocks adds a sample for that stage. */
  lemma LogMatchesHistograms(c: Clocks, stage: string)
    ensures HasKey(Attrs(c), UsKey(stage))
        <==> HasSample(Samples(SpanTable(c), false), stage) || HasSample(Samples(SpanTable(c), true), stage)
  {
    var t, k := SpanTable(c), UsKey(stage);
    assert k[|k| - 2] == 'u';
    AttrsKeys(c, k);
    SampleStages(t, false, stage);
    SampleStages(t, true, stage);
    forall i | 0 <= i < |t| ensures UsKey(t[i].stage) == k <==> t[i].stage == stage {
      assert UsKey(t[i].stage)[..|t[i].stage|] == t[i].stage && k[..|stage|] == stage;
    }
  }

  lemma UsKeyInjective(a: string, b: string)
    ensures UsKey(a) == UsKey(b) <==> a == b
  {
    assert UsKey(a)[..|a|] == a && UsKey(b)[..|b|] == b;
  }

  /** A sample of `stage` that a column would show as `text`. */
  function ShownAs(stage: string, text: string): ((string, int)) -> bool {
    (x: (string, int)) => x.0 == stage && IntText(Micros(x.1)) == text
  }

  lemma {:induction false} SampleCount(spans: seq<Span>, stage: string, text: string)
    requires forall i, j :: 0 <= i < j < |spans| ==> spans[i].stage != spans[j].stage
    ensures Count(Samples(spans, stage == "pipeline"), ShownAs(stage, text))
         == if Lookup(SpanAttrs(spans), UsKey(stage)) == Some(text) then 1 else 0
  {
    if spans == [] {
    } else {
      var init, last := spans[..|spans| - 1], spans[|spans| - 1];
      var a, x := Samples(init, stage == "pipeline"), SpanAttrs(init);
      SampleCount(init, stage, text);
      UsKeyInjective(last.stage, stage);
      if !last.Known() {
        assert SpanAttrs(spans) == x && Samples(spans, stage == "pipeline") == a;
      } else {
        LookupSnoc(x, (UsKey(last.stage), IntText(Micros(last.Duration()))), UsKey(stage));
        CountSnoc(a, (last.stage, last.Duration()), ShownAs(stage, text));
        if last.stage == stage {
          NoEarlier(init, stage);
        } else if (last.stage == "pipeline") != (stage == "pipeline") {
          assert Samples(spans, stage == "pipeline") == a;
        }
      }
    }
  }

  lemma NoEarlier(spans: seq<Span>, stage: string)
    requires forall i :: 0 <= i < |spans| ==> spans[i].stage != stage
    ensures Lookup(SpanAttrs(spans), UsKey(stage)).None?
  {
    SpanAttrsKeys(spans, UsKey(stage));
    LookupHasKey(SpanAttrs(spans), UsKey(stage));
    forall i | 0 <= i < |spans| ensures UsKey(spans[i].stage) != UsKey(stage) {
      UsKeyInjective(spans[i].stage, stage);
    }
  }

  lemma StampsHaveNoUs(c: Clocks, stage: string)
    ensures Lookup(StampAttrs(StampTable(c)), UsKey(stage)).None?
  {
    var t, key := StampTable(c), UsKey(stage);
    assert key[|key| - 2] == 'u';
    forall i | 0 <= i < |t| ensures t[i].0 != key {
      assert t[i].0[|t[i].0| - 2] == 'n';
    }
    StampAttrsKeys(t, key);
    LookupHasKey(StampAttrs(t), key);
  }

  /** One actuated event adds to the histogram of a stage exactly the sample its `<stage>_us` column shows. */
  lemma ColumnIsSample(c: Clocks, stage: string, text: string)
    ensures Count(Samples(SpanTable(c), stage == "pipeline"), ShownAs(stage, text))
         == if Lookup(Attrs(c), UsKey(stage)) == Some(text) then 1 else 0
  {
    SampleCount(SpanTable(c), stage, text);
    StampsHaveNoUs(c, stage);
    LookupAppend(StampAttrs(StampTable(c)), SpanAttrs(SpanTable(c)), UsKey(stage));
  }

  /** One actuated event adds one pipeline sample when T0 and T6 are known, the whole T6 - T0, else none. */
  lemma PipelineSamples(c: Clocks)
    ensures Samples(SpanTable(c), true)
         == if c.t0.Some? && c.t6.Some? then [("pipeline", c.t6.value - c.t0.value)] else []
  {
    var t := SpanTable(c);
    assert Samples(t[..0], true) == [];
    forall i: nat | i < 4 ensures Samples(t[..i + 1], true) == Samples(t[..i], true) {
      assert t[..i + 1][..i] == t[..i];
    }
    assert t[..5] == t && t[..5][..4] == t[..4];
    assert Samples(t[..4], true) == Samples(t[..3], true) == Samples(t[..2], true) == Samples(t[..1], true) == [];
  }

  // ---- columns by name, in their units ----------------------------------

  function ClockText(c: Clock): Option<string> {
    if c.Some? then Some(IntText(c.value)) else None
  }

  /** A duration column's number, when both ends are known. */
  function Gap(start: Clock, stop: Clock): Option<int> {
    if start.Some? && stop.Some? then Some(Micros(stop.value - start.value)) else None
  }

  lemma StampTableDistinct(c: Clocks, i: nat, j: nat)
    requires i < j < |StampTable(c)|
    ensures StampTable(c)[i].0 != StampTable(c)[j].0
  {
    assert StampTable(c)[i].0[1] != StampTable(c)[j].0[1];
  }

  lemma StampField(c: Clocks, k: nat)
    requires k < |StampTable(c)|
    ensures Lookup(Attrs(c), StampTable(c)[k].0) == ClockText(StampTable(c)[k].1)
  {
    var t, key := StampTable(c), StampTable(c)[k].0;
    forall i, j | 0 <= i < j < |t| ensures t[i].0 != t[j].0 {
      StampTableDistinct(c, i, j);
    }
    StampLookup(t, k);
    assert |key| > 2 && key[|key| - 2] == 'n';
    NoSpanKey(SpanTable(c), key);
    LookupAppend(StampAttrs(t), SpanAttrs(SpanTable(c)), key);
  }

  lemma NoSpanKey(spans: seq<Span>, key: string)
    requires |key| > 2 && key[|key| - 2] == 'n'
    ensures Lookup(SpanAttrs(spans), key).None?
  {
    SpanAttrsKeys(spans, key);
    LookupHasKey(SpanAttrs(spans), key);
    forall i | 0 <= i < |spans| ensures UsKey(spans[i].stage) != key {
      assert UsKey(spans[i].stage)[|UsKey(spans[i].stage)| - 2] == 'u';
    }
  }

  lemma SpanTableDistinct(c: Clocks, i: nat, j: nat)
    requires i < j < |SpanTable(c)|
    ensures UsKey(SpanTable(c)[i].stage) != UsKey(SpanTable(c)[j].stage)
  {
    assert UsKey(SpanTable(c)[i].stage)[5] != UsKey(SpanTable(c)[j].stage)[5]
        || UsKey(SpanTable(c)[i].stage)[0] != UsKey(SpanTable(c)[j].stage)[0];
  }

  lemma SpanField(c: Clocks, k: nat)
    requires k < |SpanTable(c)|
    ensures Lookup(Attrs(c), UsKey(SpanTable(c)[k].stage))
        == ClockText(Gap(SpanTable(c)[k].start, SpanTable(c)[k].stop))
  {
    var t, s, key := StampTable(c), SpanTable(c), UsKey(SpanTable(c)[k].stage);
    forall i, j | 0 <= i < j < |s| ensures UsKey(s[i].stage) != UsKey(s[j].stage) {
      SpanTableDistinct(c, i, j);
    }
    SpanLookup(s, k);
    assert key[|key| - 2] == 'u';
    forall i | 0 <= i < |t| ensures t[i].0 != key {
      assert t[i].0[|t[i].0| - 2] == 'n';
    }
    StampAttrsKeys(t, key);
    LookupHasKey(StampAttrs(t), key);
    LookupAppend(StampAttrs(t), SpanAttrs(s), key);
  }

  /** `n` is a duration in whole microseconds, cut toward zero. */
  predicate IsMicros(n: int, ns: int) {
    if ns >= 0 then n * 1_000 <= ns < n * 1_000 + 1_000 else n * 1_000 - 1_000 < ns <= n * 1_000
  }

  /** `text` is the time from `start` to `stop` in whole microseconds; None when an end is unknown. */
  ghost predicate Timed(text: Option<string>, start: Clock, stop: Clock) {
    if start.Some? && stop.Some? then
      exists n :: IsMicros(n, stop.value - start.value) && text == Some(IntText(n))
    else text.None?
  }

  lemma GapTimed(start: Clock, stop: Clock)
    ensures Timed(ClockText(Gap(start, stop)), start, stop)
  {
    if start.Some? && stop.Some? {
      assert IsMicros(Gap(start, stop).value, stop.value - start.value);
    }
  }

  /** What the duration columns of the log line say, by name. */
  lemma ColumnUnits(c: Clocks)
    ensures Timed(Lookup(Attrs(c), "detect_us"), c.t0, c.t1)
    ensures Timed(Lookup(Attrs(c), "translate_us"), c.t1, c.t3)
    ensures Timed(Lookup(Attrs(c), "transport_us"), c.t3, c.t4)
    ensures Timed(Lookup(Attrs(c), "actuate_us"), c.t5, c.t6)
    ensures Timed(Lookup(Attrs(c), "pipeline_us"), c.t0, c.t6)
  {
    StageKeys();
    forall k: nat | k < 5 ensures Timed(Lookup(Attrs(c), UsKey(SpanTable(c)[k].stage)), SpanTable(c)[k].start,
                                        SpanTable(c)[k].stop) {
      SpanField(c, k);
      GapTimed(SpanTable(c)[k].start, SpanTable(c)[k].stop);
    }
    assert SpanTable(c)[0].stage == "detect" && SpanTable(c)[1].stage == "translate";
    assert SpanTable(c)[2].stage == "transport" && SpanTable(c)[3].stage == "actuate";
    assert SpanTable(c)[4].stage == "pipeline";
  }

  lemma StageKeys()
    ensures UsKey("detect") == "detect_us" && UsKey("translate") == "translate_us"
    ensures UsKey("transport") == "transport_us" && UsKey("actuate") == "actuate_us"
    ensures UsKey("pipeline") == "pipeline_us"
  {}

  /** What the stamp columns say, by name: the clocks' nanoseconds, in full. */
  lemma StampColumns(c: Clocks)
    ensures Lookup(Attrs(c), "t0_ns") == ClockText(c.t0) && Lookup(Attrs(c), "t1_ns") == ClockText(c.t1)
    ensures Lookup(Attrs(c), "t3_ns") == ClockText(c.t3) && Lookup(Attrs(c), "t4_ns") == ClockText(c.t4)
    ensures Lookup(Attrs(c), "t5_ns") == ClockText(c.t5) && Lookup(Attrs(c), "t6_ns") == ClockText(c.t6)
  {
    forall k: nat | k < 6 ensures Lookup(Attrs(c), StampTable(c)[k].0) == ClockText(StampTable(c)[k].1) {
      StampField(c, k);
    }
    assert StampTable(c)[0] == ("t0_ns", c.t0) && StampTable(c)[1] == ("t1_ns", c.t1);
    assert StampTable(c)[2] == ("t3_ns", c.t3) && StampTable(c)[3] == ("t4_ns", c.t4);
    assert StampTable(c)[4] == ("t5_ns", c.t5) && StampTable(c)[5] == ("t6_ns", c.t6);
  }

  /** The sample of one span, in full nanoseconds; none when an end is unknown. */
  function SpanSample(stage: string, start: Clock, stop: Clock): seq<(string, int)> {
    if start.Some? && stop.Some? then [(stage, stop.value - start.value)] else []
  }

  /** One actuated event adds one sample per stage whose ends are known, by name. */
  lemma StageSamples(c: Clocks)
    ensures Samples(SpanTable(c), false)
         == SpanSample("detect", c.t0, c.t1) + SpanSample("translate", c.t1, c.t3) + SpanSample("transport", c.t3, c.t4)
            + SpanSample("actuate", c.t5, c.t6)
  {
    var t := SpanTable(c);
    assert t[..5] == t && Samples(t[..0], false) == [];
    assert t[..1][..0] == t[..0] && Samples(t[..1], false) == SpanSample("detect", c.t0, c.t1);
    NextSample(t, 1);
    NextSample(t, 2);
    NextSample(t, 3);
    assert t[..5][..4] == t[..4] && Samples(t, false) == Samples(t[..4], false) + [];
  }

  lemma NextSample(t: seq<Span>, i: nat)
    requires i < |t| && t[i].stage != "pipeline"
    ensures Samples(t[..i + 1], false) == Samples(t[..i], false) + SpanSample(t[i].stage, t[i].start, t[i].stop)
  {
    assert t[..i + 1][..i] == t[..i];
  }

  /** For ordered clocks the four truncated stage columns, together with the unlogged gap between handler entry
      and the patch call, undershoot the pipeline column by at most 4 microseconds. */
  lemma StagesUndershootPipeline(t0: int, t1: int, t3: int, t4: int, t5: int, t6: int,
      detect: int, translate: int, transport: int, gap: int, actuate: int, pipeline: int)
    requires t0 <= t1 <= t3 <= t4 <= t5 <= t6
    requires IsMicros(detect, t1 - t0) && IsMicros(translate, t3 - t1) && IsMicros(transport, t4 - t3)
    requires IsMicros(gap, t5 - t4) && IsMicros(actuate, t6 - t5) && IsMicros(pipeline, t6 - t0)
    ensures var sum := detect + translate + transport + gap + actuate;
            sum <= pipeline <= sum + 4
  {}
}
