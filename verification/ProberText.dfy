/** The bracketing theorems hold of the prober's text log: each `recv` line the script parses, whatever
    the response body held, shows the call that printed it. */
module ProberText {
  import opened Common
  import opened Text
  import opened Logfmt
  import opened Rfc3339
  import opened TrialJoin
  import opened Prober
  import opened Agreement
  import Protocol

  /** A line of the prober's log: a call's, or one that is no `recv` line. */
  ghost predicate Probed(line: Pairs, calls: seq<Call>) {
    && line != [] && Protocol.AsciiKeys(line)
    && (Lookup(line, "msg") == Some("recv")
        ==> exists c :: c in calls && c.Valid() && c.result.Received? && line == ProbeLine(c))
  }

  lemma LookupSix(a: (string, string), b: (string, string), c: (string, string), d: (string, string),
                  e: (string, string), f: (string, string), k: string)
    ensures Lookup([a, b, c, d, e, f], k)
         == if f.0 == k then Some(f.1) else if e.0 == k then Some(e.1) else if d.0 == k then Some(d.1)
            else if c.0 == k then Some(c.1) else if b.0 == k then Some(b.1) else if a.0 == k then Some(a.1) else None
  {
    LookupThree(a, b, c, k);
    LookupThree(d, e, f, k);
    LookupAppend([a, b, c], [d, e, f], k);
    assert [a, b, c] + [d, e, f] == [a, b, c, d, e, f];
  }

  lemma RecvFields(c: Call)
    requires c.Valid() && c.result.Received?
    ensures var line := ProbeLine(c);
            && Lookup(line, "time") == Some(Format(c.logged)) && Lookup(line, "msg") == Some("recv")
            && Lookup(line, "status") == Some(Decimal(c.result.status))
                && Lookup(line, "rtt_us") == Some(Decimal(c.RttMicros()))
  {
    var t, l, m, s, b, r := ("time", Format(c.logged)), ("level", "INFO"), ("msg", "recv"),
      ("status", Decimal(c.result.status)), ("body", c.result.body), ("rtt_us", Decimal(c.RttMicros()));
    assert ProbeLine(c) == [t, l, m, s, b, r];
    LookupSix(t, l, m, s, b, r, "time");
    LookupSix(t, l, m, s, b, r, "msg");
    LookupSix(t, l, m, s, b, r, "status");
    LookupSix(t, l, m, s, b, r, "rtt_us");
  }

  lemma ErrorMessage(c: Call)
    requires c.Valid() && !c.result.Received?
    ensures Lookup(ProbeLine(c), "msg") != Some("recv")
  {
    var line := ProbeLine(c);
    LookupSnoc(line[..3], line[3], "msg");
    LookupThree(line[0], line[1], line[2], "msg");
    assert line[..3] == [line[0], line[1], line[2]] && line[..3] + [line[3]] == line;
  }

  lemma HeadAscii(time: string, level: string, msg: string)
    ensures Protocol.AsciiKeys([("time", time), ("level", level), ("msg", msg)])
  {}

  lemma RecvAscii(status: string, body: string, rtt: string)
    ensures Protocol.AsciiKeys([("status", status), ("body", body), ("rtt_us", rtt)])
  {}

  lemma ProbeAscii(c: Call)
    requires c.Valid()
    ensures ProbeLine(c) != [] && Protocol.AsciiKeys(ProbeLine(c))
  {
    var line := ProbeLine(c);
    HeadAscii(line[0].1, line[1].1, line[2].1);
    if c.result.Received? {
      RecvAscii(line[3].1, line[4].1, line[5].1);
      AsciiConcat([line[0], line[1], line[2]], [line[3], line[4], line[5]]);
      assert [line[0], line[1], line[2]] + [line[3], line[4], line[5]] == line;
    } else {
      AsciiConcat([line[0], line[1], line[2]], [("error", line[3].1)]);
      assert [line[0], line[1], line[2]] + [("error", line[3].1)] == line;
    }
  }

  /** Every line of a trace's log is one. */
  lemma CallProbed(c: Call, calls: seq<Call>)
    requires c in calls && c.Valid()
    ensures Probed(ProbeLine(c), calls)
  {
    ProbeAscii(c);
    if !c.result.Received? {
      ErrorMessage(c);
    }
  }

  /** The digits a line printed are read back. */
  lemma ReadDigits(line: Pairs, k: string, n: nat, graphic: char -> bool)
    requires Protocol.AsciiKeys(line) && Lookup(line, k) == Some(Decimal(n))
    ensures Read(line, graphic).Get(k) == Some(Decimal(n))
  {
    DigitsLiteral(Decimal(n));
    ReadLiteral(line, k, Decimal(n), graphic);
  }

  lemma ReadMsg(line: Pairs, graphic: char -> bool)
    requires Protocol.AsciiKeys(line)
    ensures Read(line, graphic).Get("msg") == Some("recv") <==> Lookup(line, "msg") == Some("recv")
  {
    assert Literal("recv");
    ReadLiteral(line, "msg", "recv", graphic);
  }

  lemma ReadFields(line: Pairs, at: int, status: nat, rtt: nat, graphic: char -> bool)
    requires Protocol.AsciiKeys(line) && LoggedAt(line, at) && Lookup(line, "msg") == Some("recv")
    requires Lookup(line, "status") == Some(Decimal(status)) && Lookup(line, "rtt_us") == Some(Decimal(rtt))
    ensures var l := Read(line, graphic);
            && l.stamp == At(at) && l.Get("msg") == Some("recv")
            && l.Get("status") == Some(Decimal(status)) && l.Get("rtt_us") == Some(Decimal(rtt))
  {
    ReadStamp(line, at, graphic);
    ReadMsg(line, graphic);
    ReadDigits(line, "status", status, graphic);
    ReadDigits(line, "rtt_us", rtt, graphic);
  }

  lemma ReadRecv(line: Pairs, c: Call, graphic: char -> bool)
    requires c.Valid() && c.result.Received? && line == ProbeLine(c)
    ensures FullLine(Read(line, graphic), c)
  {
    RecvFields(c);
    ProbeAscii(c);
    ReadFields(line, c.logged, c.result.status, c.RttMicros(), graphic);
  }

  lemma ReadProbed(line: Pairs, calls: seq<Call>, graphic: char -> bool)
    requires Probed(line, calls) && IsRecv(Read(line, graphic))
    ensures exists k :: 0 <= k < |calls| && Shows(Read(line, graphic), calls[k])
  {
    ReadMsg(line, graphic);
    var c :| c in calls && c.Valid() && c.result.Received? && line == ProbeLine(c);
    ReadRecv(line, c, graphic);
    var k :| 0 <= k < |calls| && calls[k] == c;
    assert Shows(Read(line, graphic), calls[k]);
  }

  /** The text of any lines of the log, some lost or in another order, parses to lines drawn from the calls. */
  lemma TextDrawn(kept: seq<Pairs>, calls: seq<Call>, graphic: char -> bool)
    requires forall line :: line in kept ==> Probed(line, calls)
    ensures DrawnFrom(ReadLog(PrintLog(kept, graphic)), calls)
  {
    ReadLogPrinted(kept, graphic);
    var lines := ReadAll(kept, graphic);
    forall i | 0 <= i < |lines| && IsRecv(lines[i])
      ensures exists k :: 0 <= k < |calls| && Shows(lines[i], calls[k])
    {
      assert kept[i] in kept;
      ReadProbed(kept[i], calls, graphic);
    }
  }

  lemma {:induction false} TraceLogAt(calls: seq<Call>, i: nat)
    requires i < |calls| && forall k :: 0 <= k < |calls| ==> calls[k].Valid()
    ensures TraceLog(calls)[i] == ProbeLine(calls[i])
  {
    if i == |calls| - 1 {
    } else {
      TraceLogAt(calls[..|calls| - 1], i);
    }
  }

  lemma TraceLogLines(calls: seq<Call>)
    requires forall i :: 0 <= i < |calls| ==> calls[i].Valid()
    ensures forall i :: 0 <= i < |calls| ==> TraceLog(calls)[i] == ProbeLine(calls[i])
  {
    forall i | 0 <= i < |calls| ensures TraceLog(calls)[i] == ProbeLine(calls[i]) {
      TraceLogAt(calls, i);
    }
  }

  /** The recv lines of the text log of any trace, errored requests and failed body reads included, are the
      lines of the calls that were answered and read, one each, in order. */
  lemma TextComplete(calls: seq<Call>, graphic: char -> bool)
    requires Trace(calls)
    ensures RecvLog(Filter(ReadLog(PrintLog(TraceLog(calls), graphic)), IsRecv), Replies(calls))
  {
    TraceLogLines(calls);
    ReadLogPrinted(TraceLog(calls), graphic);
    RecvLines(calls, graphic);
  }

  /** The script takes the line for a recv line exactly when the call was answered, and then reads the call off it. */
  predicate Reflects(l: Line, c: Call) {
    (IsRecv(l) <==> IsReply(c)) && (IsReply(c) ==> FullLine(l, c))
  }

  lemma ProbeReflects(line: Pairs, c: Call, graphic: char -> bool)
    requires c.Valid() && line == ProbeLine(c)
    ensures Reflects(Read(line, graphic), c)
  {
    if IsReply(c) {
      ReadRecv(line, c, graphic);
    } else {
      ProbeAscii(c);
      ErrorMessage(c);
      ReadMsg(line, graphic);
    }
  }

  lemma {:induction false} ReflectedRecv(lines: seq<Line>, calls: seq<Call>)
    requires |lines| == |calls| && forall i :: 0 <= i < |lines| ==> Reflects(lines[i], calls[i])
    ensures RecvLog(Filter(lines, IsRecv), Replies(calls))
  {
    if lines == [] {
    } else {
      var n := |lines| - 1;
      ReflectedRecv(lines[..n], calls[..n]);
      assert lines == lines[..n] + [lines[n]] && calls == calls[..n] + [calls[n]];
      assert Reflects(lines[n], calls[n]);
      NextRecv(lines[..n], lines[n], calls[..n], calls[n]);
    }
  }

  lemma RecvLines(calls: seq<Call>, graphic: char -> bool)
    requires forall i :: 0 <= i < |calls| ==> calls[i].Valid()
    ensures RecvLog(Filter(Map(TraceLog(calls), Reader(graphic)), IsRecv), Replies(calls))
  {
    TraceLogLines(calls);
    forall i | 0 <= i < |calls| ensures Reflects(Map(TraceLog(calls), Reader(graphic))[i], calls[i]) {
      ProbeReflects(TraceLog(calls)[i], calls[i], graphic);
    }
    ReflectedRecv(Map(TraceLog(calls), Reader(graphic)), calls);
  }

  lemma NextRecv(lines: seq<Line>, l: Line, calls: seq<Call>, c: Call)
    requires RecvLog(Filter(lines, IsRecv), Replies(calls))
    requires Reflects(l, c)
    ensures RecvLog(Filter(lines + [l], IsRecv), Replies(calls + [c]))
  {
    FilterSnoc(lines, l, IsRecv);
    FilterSnoc(calls, c, IsReply);
    if IsReply(c) {
      MoreRecv(Filter(lines, IsRecv), l, Replies(calls), c);
    }
  }

  lemma MoreRecv(full: seq<Line>, l: Line, calls: seq<Call>, c: Call)
    requires RecvLog(full, calls) && FullLine(l, c)
    ensures RecvLog(full + [l], calls + [c])
  {
    forall i | 0 <= i < |full| + 1 ensures FullLine((full + [l])[i], (calls + [c])[i]) {
      if i < |full| {
        assert FullLine(full[i], calls[i]);
      }
    }
  }

  /** What is left of the text of a trace's log. */
  lemma KeptLeft(calls: seq<Call>, kept: seq<Pairs>, graphic: char -> bool)
    requires Trace(calls) && forall line :: line in kept ==> Probed(line, calls)
    ensures LeftOf(Filter(ReadAll(kept, graphic), IsRecv), Filter(ReadAll(TraceLog(calls), graphic), IsRecv))
  {
    forall l | l in Filter(Map(kept, Reader(graphic)), IsRecv)
      ensures l in Filter(Map(TraceLog(calls), Reader(graphic)), IsRecv)
    {
      FilterIn(Map(kept, Reader(graphic)), IsRecv, l);
      MapIn(kept, Reader(graphic), l);
      var j :| 0 <= j < |kept| && l == Reader(graphic)(kept[j]);
      KeptOne(calls, kept[j], graphic);
      FilterIn(Map(TraceLog(calls), Reader(graphic)), IsRecv, l);
    }
    SomeLeft(Filter(Map(kept, Reader(graphic)), IsRecv), Filter(Map(TraceLog(calls), Reader(graphic)), IsRecv));
  }

  lemma SomeLeft(part: seq<Line>, full: seq<Line>)
    requires forall l :: l in part ==> l in full
    ensures LeftOf(part, full)
  {
    forall i | 0 <= i < |part| ensures IsLeft(part[i], full) {
      assert part[i] in full;
    }
  }

  lemma KeptOne(calls: seq<Call>, line: Pairs, graphic: char -> bool)
    requires Trace(calls) && Probed(line, calls) && IsRecv(Read(line, graphic))
    ensures Read(line, graphic) in Map(TraceLog(calls), Reader(graphic))
  {
    ReadMsg(line, graphic);
    var c :| c in calls && c.Valid() && c.result.Received? && line == ProbeLine(c);
    var m :| 0 <= m < |calls| && calls[m] == c;
    TraceLogAt(calls, m);
    MapIn(TraceLog(calls), Reader(graphic), Read(line, graphic));
    assert Read(line, graphic) == Reader(graphic)(TraceLog(calls)[m]);
  }

  /** `LossOnlyWidens` on the text: losing lines of the prober's log file never narrows the window. */
  lemma TextLossOnlyWidens(
      calls: seq<Call>, kept: seq<Pairs>, tau: int, after: Option<int>, graphic: char -> bool,
      u: Option<int>, l: Option<int>, pu: Option<int>, pl: Option<int>)
    requires Trace(calls) && Enforced(calls, tau, after) && forall line :: line in kept ==> Probed(line, calls)
    requires IsWindow(ReadLog(PrintLog(TraceLog(calls), graphic)), after, u, l)
    requires IsWindow(ReadLog(PrintLog(kept, graphic)), after, pu, pl) && pu.Some?
    ensures u.Some? && u.value <= pu.value
    ensures pl.Some? ==> l.Some? && pl.value <= l.value
  {
    var full, part := ReadLog(PrintLog(TraceLog(calls), graphic)), ReadLog(PrintLog(kept, graphic));
    TextComplete(calls, graphic);
    TextLeft(calls, kept, graphic);
    LossOfLines(calls, full, part, tau, after, u, l, pu, pl);
  }

  lemma TextLeft(calls: seq<Call>, kept: seq<Pairs>, graphic: char -> bool)
    requires Trace(calls) && forall line :: line in kept ==> Probed(line, calls)
    ensures LeftOf(Filter(ReadLog(PrintLog(kept, graphic)), IsRecv),
                   Filter(ReadLog(PrintLog(TraceLog(calls), graphic)), IsRecv))
  {
    TraceLogLines(calls);
    ReadLogPrinted(TraceLog(calls), graphic);
    ReadLogPrinted(kept, graphic);
    KeptLeft(calls, kept, graphic);
  }

  /** `LossOnlyWidens` with the other lines of the log in between. */
  lemma LossOfLines(
      calls: seq<Call>, full: seq<Line>, part: seq<Line>, tau: int, after: Option<int>,
      u: Option<int>, l: Option<int>, pu: Option<int>, pl: Option<int>)
    requires Trace(calls) && Enforced(calls, tau, after)
    requires RecvLog(Filter(full, IsRecv), Replies(calls)) && LeftOf(Filter(part, IsRecv), Filter(full, IsRecv))
    requires IsWindow(full, after, u, l) && IsWindow(part, after, pu, pl) && pu.Some?
    ensures u.Some? && u.value <= pu.value
    ensures pl.Some? ==> l.Some? && pl.value <= l.value
  {
    RecvDecides(full, after, u, l);
    RecvDecides(part, after, pu, pl);
    LossOnlyWidens(calls, Filter(full, IsRecv), Filter(part, IsRecv), tau, after, u, l, pu, pl);
  }

  /** `WholeLogSafeIff` on the text. */
  lemma TextSafeIff(calls: seq<Call>, rho: int, tau: int, after: Option<int>, upper: int, lower: int,
          graphic: char -> bool)
    returns (c: Call, k: nat)
    requires Trace(calls) && Explains(calls, rho, tau, after)
    requires IsWindow(ReadLog(PrintLog(TraceLog(calls), graphic)), after, Some(upper), Some(lower))
    ensures IsLastRead(calls, c) && lower == c.start + c.Overshoot() && IsLastAllowed(calls, k)
    ensures SafeBound(calls, after, lower) <==> c.start + c.Overshoot() <= calls[k].arrival
    ensures c == calls[k] ==> (SafeBound(calls, after, lower) <==> c.Overshoot() <= c.arrival - c.start)
  {
    TextComplete(calls, graphic);
    var lines := ReadLog(PrintLog(TraceLog(calls), graphic));
    RecvDecides(lines, after, Some(upper), Some(lower));
    c, k := WholeLogSafeIff(calls, Filter(lines, IsRecv), rho, tau, after, upper, lower);
  }

  /** A missed reset: the old deny, in force until rho, answers the first request after T0, long before the new
      one is live, and the window the script finds in the text ends there. */
  lemma MissedReset(graphic: char -> bool) returns (c: Call, t0: int, rho: int, tau: int)
    ensures Trace([c]) && OldDeny([c], rho, tau) && c.Got(403) && t0 < c.start && c.logged < tau
    ensures IsWindow(ReadLog(PrintLog(TraceLog([c]), graphic)), Some(t0), Some(c.logged), None)
  {
    UnixNanoInRange(20_130_000);
    c := Call(20_000_000, 20_050_000, 20_120_000, 20_130_000, Received(403, "denied"));
    t0, rho, tau := 15_000_000, 300_000_000, 500_000_000;
    OnlyDeny(c, t0, graphic);
  }

  /** A trace of one 403 after T0 gives the window that ends there. */
  lemma OnlyDeny(c: Call, t0: int, graphic: char -> bool)
    requires c.Valid() && c.Got(403) && t0 <= c.logged
    ensures IsWindow(ReadLog(PrintLog(TraceLog([c]), graphic)), Some(t0), Some(c.logged), None)
  {
    TextComplete([c], graphic);
    var lines := ReadLog(PrintLog(TraceLog([c]), graphic));
    var full := Filter(lines, IsRecv);
    assert [c][..0] == [];
    FilterSnoc([], c, IsReply);
    assert [] + [c] == [c] && Replies([c]) == [c];
    assert FullLine(full[0], c);
    ShownStatus(full[0], c);
    assert IsFirstDeny(full, Some(t0), 0) && full[..0] == [];
    RecvDecides(lines, Some(t0), Some(c.logged), None);
  }
}
