/** The sequential prober of cmd/service-a/main.go as a timed trace, and what `find_deny_window` can
    conclude from its log about the unobserved instant tau at which the deny goes live. */
module Prober {
  import opened Common
  import opened Text
  import opened Logfmt
  import opened Rfc3339
  import opened Spans
  import opened TrialJoin

  /** How one request ended. */
  datatype Result =
    | BadRequest(error: string)
    | NoResponse(error: string)
    | Unread(status: nat, error: string)
    | Received(status: nat, body: string)

  /** One run of `call`, on the one host clock: entry, arrival at Service B's sidecar, evaluation of
      time.Since, stamp of the log line. */
  datatype Call = Call(start: int, arrival: int, measured: int, logged: int, result: Result) {
    predicate Valid() {
      start <= arrival <= measured <= logged && InRange(logged)
    }

    /** The status line came back, whether or not the body could be read. */
    predicate Answered(status: nat) {
      (result.Received? || result.Unread?) && result.status == status
    }

    predicate Got(status: nat) {
      result.Received? && result.status == status
    }

    function RttMicros(): nat
      requires Valid()
    {
      (measured - start) / 1000
    }

    /** How far the send-time bound lies after the true start: the gap between time.Since and the log
        stamp, plus what the microsecond truncation drops. */
    function Overshoot(): nat
      requires Valid()
    {
      (logged - measured) + (measured - start) % 1000
    }
  }

  /** The line a call logs. */
  function ProbeLine(c: Call): Pairs
    requires c.Valid()
  {
    match c.result
    case Received(status, body) =>
      [("time", Format(c.logged)), ("level", "INFO"), ("msg", "recv"),
       ("status", Decimal(status)), ("body", body), ("rtt_us", Decimal(c.RttMicros()))]
    case other =>
      [("time", Format(c.logged)), ("level", "ERROR"),
       ("msg", if other.BadRequest? then "request" else if other.NoResponse? then "do" else "read"),
       ("error", other.error)]
  }

  /** One call at a time: each starts after the previous one logged. */
  predicate Trace(calls: seq<Call>) {
    && (forall i :: 0 <= i < |calls| ==> calls[i].Valid())
    && (forall i, j :: 0 <= i < j < |calls| ==> calls[i].logged <= calls[j].start)
  }

  function TraceLog(calls: seq<Call>): (log: seq<Pairs>)
    requires forall i :: 0 <= i < |calls| ==> calls[i].Valid()
    ensures |log| == |calls|
  {
    if calls == [] then [] else TraceLog(calls[..|calls| - 1]) + [ProbeLine(calls[|calls| - 1])]
  }

  lemma TraceLogSnoc(log: seq<Pairs>, calls: seq<Call>, i: nat)
    requires i < |calls| && forall k :: 0 <= k < |calls| ==> calls[k].Valid()
    ensures log + TraceLog(calls[..i + 1]) == log + TraceLog(calls[..i]) + [ProbeLine(calls[i])]
  {
    assert calls[..i + 1][..i] == calls[..i];
  }

  class Prober {
    var requests: map<string, nat>
    var log: seq<Pairs>

    constructor ()
      ensures requests == map[] && log == []
    {
      requests, log := map[], [];
    }

    /** `call`, with the outside world's part given. */
    method Probe(c: Call)
      requires c.Valid()
      modifies this
      ensures log == old(log) + [ProbeLine(c)]
      ensures requests == Bumped(old(requests), c)
    {
      if c.result.BadRequest? {
        log := log + [[("time", Format(c.logged)), ("level", "ERROR"), ("msg", "request"), ("error", c.result.error)]];
        return;
      }
      if c.result.NoResponse? {
        requests := Inc(requests, "error");
        log := log + [[("time", Format(c.logged)), ("level", "ERROR"), ("msg", "do"), ("error", c.result.error)]];
        return;
      }
      requests := Inc(requests, Decimal(c.result.status));
      if c.result.Unread? {
        log := log + [[("time", Format(c.logged)), ("level", "ERROR"), ("msg", "read"), ("error", c.result.error)]];
        return;
      }
      var rtt := c.RttMicros();
      log := log + [[("time", Format(c.logged)), ("level", "INFO"), ("msg", "recv"),
                     ("status", Decimal(c.result.status)), ("body", c.result.body), ("rtt_us", Decimal(rtt))]];
    }

    /** The loop of `main`, for as many ticks as there are calls. */
    method Loop(calls: seq<Call>)
      requires forall i :: 0 <= i < |calls| ==> calls[i].Valid()
      modifies this
      ensures log == old(log) + TraceLog(calls)
      ensures requests == Tally(old(requests), calls)
    {
      for i := 0 to |calls|
        invariant log == old(log) + TraceLog(calls[..i])
        invariant requests == Tally(old(requests), calls[..i])
      {
        TraceLogSnoc(old(log), calls, i);
        TallySnoc(old(requests), calls, i);
        Probe(calls[i]);
      }
      assert calls[..|calls|] == calls;
    }
  }

  /** The counter's label for a call, if it is counted: off the status line, before the body is read. */
  function Counter(r: Result): Option<string> {
    match r
    case BadRequest(_) => None
    case NoResponse(_) => Some("error")
    case Unread(status, _) => Some(Decimal(status))
    case Received(status, _) => Some(Decimal(status))
  }

  function Inc(m: map<string, nat>, k: string): map<string, nat> {
    m[k := Series(m, k) + 1]
  }

  /** A series that was never incremented reads zero. */
  function Series(m: map<string, nat>, k: string): nat {
    if k in m then m[k] else 0
  }

  function Bumped(m: map<string, nat>, c: Call): map<string, nat> {
    match Counter(c.result) case None => m case Some(k) => Inc(m, k)
  }

  /** The request counter after a series of calls. */
  function Tally(m: map<string, nat>, calls: seq<Call>): map<string, nat> {
    if calls == [] then m else Bumped(Tally(m, calls[..|calls| - 1]), calls[|calls| - 1])
  }

  lemma TallySnoc(m: map<string, nat>, calls: seq<Call>, i: nat)
    requires i < |calls|
    ensures Tally(m, calls[..i + 1]) == Bumped(Tally(m, calls[..i]), calls[i])
  {
    assert calls[..i + 1][..i] == calls[..i];
  }

  /** A status series counts the calls whose status line came back, whether or not the body could be read; the
      "error" series those without a response; and there is no other series. */
  lemma {:induction false} TallyCounts(m: map<string, nat>, calls: seq<Call>, status: nat)
    ensures Series(Tally(m, calls), Decimal(status)) == Series(m, Decimal(status))
         + Count(calls, (c: Call) => (c.result.Received? || c.result.Unread?) && c.result.status == status)
    ensures Series(Tally(m, calls), "error") == Series(m, "error") + Count(calls, (c: Call) => c.result.NoResponse?)
    ensures forall k :: (k in Tally(m, calls) <==> k in m) || k == "error" || AllDigits(k)
  {
    if calls == [] {
    } else {
      var last := calls[|calls| - 1];
      TallyCounts(m, calls[..|calls| - 1], status);
      if last.result.Received? || last.result.Unread? {
        assert IsDigit(Decimal(last.result.status)[0]);
        if Decimal(last.result.status) == Decimal(status) {
          StatusText(last.result.status, status, Decimal(status));
        }
      } else if last.result.NoResponse? {
        assert IsDigit(Decimal(status)[0]);
      }
    }
  }

  /** A request that could not be built is not counted. */
  lemma {:induction false} BadRequestsUncounted(m: map<string, nat>, calls: seq<Call>)
    requires forall c :: c in calls ==> c.result.BadRequest?
    ensures Tally(m, calls) == m
  {
    if calls == [] {
    } else {
      BadRequestsUncounted(m, calls[..|calls| - 1]);
      assert calls[|calls| - 1] in calls;
    }
  }

  /** What the line of an answered call says under each key. */
  lemma RecvLineSays(c: Call, k: string)
    requires c.Valid() && c.result.Received?
    ensures k != "rtt_us" ==>
              Lookup(ProbeLine(c), k)
              == if k == "time" then Some(Format(c.logged)) else if k == "level" then Some("INFO")
                 else if k == "msg" then Some("recv") else if k == "status" then Some(IntText(c.result.status))
                 else if k == "body" then Some(c.result.body) else None
    ensures Timed(Lookup(ProbeLine(c), "rtt_us"), Some(c.start), Some(c.measured))
  {
    RecvPairs(Format(c.logged), Decimal(c.result.status), c.result.body, Decimal(c.RttMicros()), k);
    RecvPairs(Format(c.logged), Decimal(c.result.status), c.result.body, Decimal(c.RttMicros()), "rtt_us");
    assert IsMicros(c.RttMicros(), c.measured - c.start) && IntText(c.RttMicros()) == Decimal(c.RttMicros());
  }

  lemma RecvPairs(time: string, status: string, body: string, rtt: string, k: string)
    ensures Lookup([("time", time), ("level", "INFO"), ("msg", "recv"), ("status", status), ("body", body),
                    ("rtt_us", rtt)], k)
         == if k == "time" then Some(time) else if k == "level" then Some("INFO") else if k == "msg" then Some("recv")
            else if k == "status" then Some(status) else if k == "body" then Some(body)
            else if k == "rtt_us" then Some(rtt) else None
  {
    var head, tail := [("time", time), ("level", "INFO"), ("msg", "recv")],
                      [("status", status), ("body", body), ("rtt_us", rtt)];
    assert [("time", time), ("level", "INFO"), ("msg", "recv"), ("status", status), ("body", body), ("rtt_us", rtt)]
        == head + tail;
    LookupAppend(head, tail, k);
    LookupThree(head[0], head[1], head[2], k);
    LookupThree(tail[0], tail[1], tail[2], k);
  }

  /** And that of a call that failed. */
  lemma ErrorLineSays(c: Call, k: string)
    requires c.Valid() && !c.result.Received?
    ensures Lookup(ProbeLine(c), k)
         == if k == "time" then Some(Format(c.logged)) else if k == "level" then Some("ERROR")
            else if k == "error" then Some(c.result.error)
            else if k != "msg" then None
            else Some(if c.result.BadRequest? then "request" else if c.result.NoResponse? then "do" else "read")
  {
    var line := ProbeLine(c);
    ErrorPairs(Format(c.logged), line[2].1, c.result.error, k);
    assert line == [("time", Format(c.logged)), ("level", "ERROR"), ("msg", line[2].1), ("error", c.result.error)];
  }

  lemma ErrorPairs(time: string, msg: string, error: string, k: string)
    ensures Lookup([("time", time), ("level", "ERROR"), ("msg", msg), ("error", error)], k)
         == if k == "time" then Some(time) else if k == "level" then Some("ERROR") else if k == "msg" then Some(msg)
            else if k == "error" then Some(error) else None
  {
    var head := [("time", time), ("level", "ERROR"), ("msg", msg)];
    LookupThree(head[0], head[1], head[2], k);
    LookupSnoc(head, ("error", error), k);
    assert head + [("error", error)] == [("time", time), ("level", "ERROR"), ("msg", msg), ("error", error)];
  }

  // ---- what a line shows of its call ------------------------------------

  /** A `recv` line written by `c`; its rtt may have been lost. */
  predicate Shows(l: Line, c: Call) {
    && c.Valid() && c.result.Received?
    && l.stamp == At(c.logged) && l.Get("msg") == Some("recv") && l.Get("status") == Some(Decimal(c.result.status))
    && (l.Get("rtt_us") == Some(Decimal(c.RttMicros())) || l.Get("rtt_us").None?)
  }

  /** Every `recv` line comes from some call: any part of the log, in any order, with any rtt dropped. */
  ghost predicate DrawnFrom(lines: seq<Line>, calls: seq<Call>) {
    forall i :: 0 <= i < |lines| && IsRecv(lines[i]) ==> exists k :: 0 <= k < |calls| && Shows(lines[i], calls[k])
  }

  /** The deny goes live at tau: a 200 arrived before it, a 403 at or after it, except 403s of an
      earlier deny that were logged before `after`. */
  predicate Enforced(calls: seq<Call>, tau: int, after: Option<int>) {
    forall c :: c in calls ==>
      && (c.Got(200) ==> c.arrival < tau)
      && (c.Got(403) ==> c.arrival >= tau || (after.Some? && c.logged < after.value))
  }

  lemma StatusText(n: nat, m: nat, s: string)
    requires Decimal(n) == s && s == Decimal(m)
    ensures n == m
  {
    DecimalValue(n);
    DecimalValue(m);
  }

  lemma Decimals()
    ensures Decimal(200) == "200" && Decimal(403) == "403"
  {
    assert Decimal(2) == "2" && Decimal(4) == "4";
    assert Decimal(20) == "20" && Decimal(40) == "40";
  }

  lemma ShownStatus(l: Line, c: Call)
    requires Shows(l, c)
    ensures IsAllowed(l) <==> c.Got(200)
    ensures forall after :: IsDeny(l, after) <==> c.Got(403) && (after.None? || c.logged >= after.value)
    ensures c.Got(200) ==> SentAt(l) == None || SentAt(l) == Some(c.start + c.Overshoot())
  {
    Decimals();
    if l.Get("status") == Some("200") {
      StatusText(c.result.status, 200, "200");
    }
    if l.Get("status") == Some("403") {
      StatusText(c.result.status, 403, "403");
    }
    DecimalValue(c.RttMicros());
  }

  /** The bound is that of an allowed line, and no allowed line follows it. */
  lemma {:induction false} LastSentFrom(lines: seq<Line>) returns (k: int)
    requires LastSent(lines).Some?
    ensures 0 <= k < |lines| && IsAllowed(lines[k]) && SentAt(lines[k]) == LastSent(lines)
    ensures forall i :: k < i < |lines| ==> !IsAllowed(lines[i])
  {
    k := |lines| - 1;
    if !IsAllowed(lines[k]) {
      k := LastSentFrom(lines[..k]);
    }
  }

  // ---- bracketing -------------------------------------------------------

  /** The window brackets tau, for every trace, every tau and every part of the log: tau is at most the
      upper edge, and the lower edge overshoots the start of a 200 that arrived before tau by exactly
      that call's `Overshoot`, which is below the stamp gap plus 1000 ns. */
  lemma Bracketing(calls: seq<Call>, lines: seq<Line>, tau: int, after: Option<int>, upper: Option<int>,
          lower: Option<int>)
    returns (c: Call)
    requires DrawnFrom(lines, calls) && Enforced(calls, tau, after) && IsWindow(lines, after, upper, lower)
    ensures upper.Some? ==> tau <= upper.value
    ensures upper.Some? && after.Some? ==> after.value <= upper.value
    ensures lower.Some? ==>
              && upper.Some? && c in calls && c.Got(200) && c.Valid()
              && lower.value == c.start + c.Overshoot() && c.start <= c.arrival < tau
              && lower.value - c.Overshoot() < tau && c.Overshoot() < (c.logged - c.measured) + 1000
  {
    c := Call(0, 0, 0, 0, BadRequest(""));
    if upper.Some? {
      var i: nat :| IsFirstDeny(lines, after, i) && lines[i].stamp == At(upper.value) && lower == LastSent(lines[..i]);
      DenyAfterTau(calls, lines, tau, after, i);
      if lower.Some? {
        c := LowerCall(calls, lines, tau, after, i);
      }
    }
  }

  lemma DenyAfterTau(calls: seq<Call>, lines: seq<Line>, tau: int, after: Option<int>, i: nat)
    requires DrawnFrom(lines, calls) && Enforced(calls, tau, after) && IsFirstDeny(lines, after, i)
    ensures tau <= lines[i].stamp.ns && (after.Some? ==> after.value <= lines[i].stamp.ns)
  {
    var k :| 0 <= k < |calls| && Shows(lines[i], calls[k]);
    ShownStatus(lines[i], calls[k]);
    assert calls[k] in calls;
  }

  /** The call behind the lower edge. */
  lemma LowerCall(calls: seq<Call>, lines: seq<Line>, tau: int, after: Option<int>, i: nat) returns (c: Call)
    requires DrawnFrom(lines, calls) && Enforced(calls, tau, after) && i <= |lines| && LastSent(lines[..i]).Some?
    ensures c in calls && c.Got(200) && c.Valid() && c.arrival < tau
    ensures LastSent(lines[..i]) == Some(c.start + c.Overshoot())
  {
    var j := LastSentFrom(lines[..i]);
    assert lines[..i][j] == lines[j];
    var m :| 0 <= m < |calls| && Shows(lines[j], calls[m]);
    ShownStatus(lines[j], calls[m]);
    c := calls[m];
    assert c in calls;
  }

  /** Exactly (lower, upper], if the overshoot of the one call behind the lower edge stays within its
      send-to-arrival time. */
  lemma ExactBracketing(calls: seq<Call>, lines: seq<Line>, tau: int, after: Option<int>, upper: Option<int>,
          lower: Option<int>)
    returns (c: Call)
    requires DrawnFrom(lines, calls) && Enforced(calls, tau, after) && IsWindow(lines, after, upper, lower)
    ensures upper.Some? ==> tau <= upper.value
    ensures lower.Some? ==>
              upper.Some? && c in calls && c.Got(200) && c.Valid() && lower.value == c.start + c.Overshoot()
    ensures lower.Some? ==> lower.value - c.Overshoot() < tau
    ensures lower.Some? && c.Overshoot() <= c.arrival - c.start ==> lower.value < tau
  {
    c := Bracketing(calls, lines, tau, after, upper, lower);
  }

  /** What the sidecar does to the calls: 403 while an earlier deny is in force, until `rho`, and again from tau on;
      200 in between. A status counts even when the body could not be read. */
  predicate OldDeny(calls: seq<Call>, rho: int, tau: int) {
    && rho <= tau
    && forall c :: c in calls ==>
         && (c.Answered(200) ==> rho <= c.arrival < tau)
         && (c.Answered(403) ==> c.arrival < rho || c.arrival >= tau)
  }

  /** Each 403 of the earlier deny was logged before T0. */
  predicate LeftoversEarly(calls: seq<Call>, rho: int, after: Option<int>) {
    forall c :: c in calls && c.Got(403) && c.arrival < rho ==> after.Some? && c.logged < after.value
  }

  /** These instants explain every status of the trace, with no left-over 403 after T0. */
  predicate Explains(calls: seq<Call>, rho: int, tau: int, after: Option<int>) {
    OldDeny(calls, rho, tau) && LeftoversEarly(calls, rho, after)
  }

  lemma ExplainsEnforced(calls: seq<Call>, rho: int, tau: int, after: Option<int>)
    requires Explains(calls, rho, tau, after)
    ensures Enforced(calls, tau, after)
  {
    forall c | c in calls
      ensures c.Got(200) ==> c.arrival < tau
      ensures c.Got(403) ==> c.arrival >= tau || (after.Some? && c.logged < after.value)
    {
      assert c.Got(200) ==> c.Answered(200);
      assert c.Got(403) ==> c.Answered(403);
    }
  }

  /** The last call of a trace that was answered 200. */
  predicate IsLastAllowed(calls: seq<Call>, k: nat) {
    k < |calls| && calls[k].Answered(200) && forall i :: k < i < |calls| ==> !calls[i].Answered(200)
  }

  /** Every instant the deny may have gone live at, as far as the statuses can tell, is after the bound. */
  ghost predicate SafeBound(calls: seq<Call>, after: Option<int>, bound: int) {
    forall rho, tau :: Explains(calls, rho, tau, after) ==> Before(bound, tau)
  }

  /** When does the window contain tau? Whatever part of the log it was computed from, its lower edge is
      before every tau that explains the calls exactly when it is not after the arrival of the last 200. */
  lemma WindowSafeIff(calls: seq<Call>, lines: seq<Line>, rho: int, tau: int, after: Option<int>,
          upper: int, lower: int)
    returns (k: nat)
    requires Trace(calls) && DrawnFrom(lines, calls) && Explains(calls, rho, tau, after)
    requires IsWindow(lines, after, Some(upper), Some(lower))
    ensures IsLastAllowed(calls, k)
    ensures SafeBound(calls, after, lower) <==> lower <= calls[k].arrival
  {
    ExplainsEnforced(calls, rho, tau, after);
    var c := Bracketing(calls, lines, tau, after, Some(upper), Some(lower));
    k := LastAllowed(calls, c);
    EarliestTau(calls, rho, tau, after, k);
    if SafeBound(calls, after, lower) {
      assert Before(lower, calls[k].arrival + 1);
    }
    LaterThanLast(calls, after, lower, k);
  }

  lemma LaterThanLast(calls: seq<Call>, after: Option<int>, lower: int, k: nat)
    requires k < |calls| && calls[k].Answered(200)
    ensures lower <= calls[k].arrival ==> SafeBound(calls, after, lower)
  {
    assert calls[k] in calls;
  }

  lemma {:induction false} LastAllowed(calls: seq<Call>, c: Call) returns (k: nat)
    requires c in calls && c.Answered(200)
    ensures IsLastAllowed(calls, k)
  {
    var n := |calls| - 1;
    if calls[n].Answered(200) {
      k := n;
    } else {
      assert calls == calls[..n] + [calls[n]];
      k := LastAllowed(calls[..n], c);
    }
  }

  lemma LatestArrival(calls: seq<Call>, k: nat)
    requires Trace(calls) && IsLastAllowed(calls, k)
    ensures forall c :: c in calls && c.Answered(200) ==> c.arrival <= calls[k].arrival
  {
    forall c | c in calls && c.Answered(200) ensures c.arrival <= calls[k].arrival {
      var i :| 0 <= i < |calls| && calls[i] == c;
      assert i <= k;
    }
  }

  /** The deny may have gone live right after the last 200 arrived. */
  lemma EarliestTau(calls: seq<Call>, rho: int, tau: int, after: Option<int>, k: nat)
    requires Trace(calls) && Explains(calls, rho, tau, after) && IsLastAllowed(calls, k)
    ensures Explains(calls, rho, calls[k].arrival + 1, after)
  {
    assert calls[k] in calls;
    LatestArrival(calls, k);
  }

  predicate Before(bound: int, tau: int) {
    bound < tau
  }

  /** The line of an answered call with its rtt. */
  predicate FullLine(l: Line, c: Call) {
    Shows(l, c) && l.Get("rtt_us").Some?
  }

  /** So the containment the script's comment claims is not unconditional: whenever a 200's overshoot
      exceeds its send-to-arrival time, a deny going live right after its arrival, seen by the next
      call, gets a window whose lower edge is not before tau. */
  lemma WindowMissesTau(a: Call, b: Call, la: Line, lb: Line)
    requires a.Valid() && b.Valid() && a.logged <= b.start && a.Got(200) && b.Got(403)
    requires FullLine(la, a) && FullLine(lb, b)
    requires a.Overshoot() > a.arrival - a.start && a.arrival < b.arrival
    ensures var tau := a.arrival + 1;
            && Explains([a, b], a.start, tau, None) && Enforced([a, b], tau, None)
            && exists lower: int :: IsWindow([la, lb], None, Some(b.logged), Some(lower)) && !(lower < tau)
  {
    ShownStatus(la, a);
    ShownStatus(lb, b);
    var lower := a.start + a.Overshoot();
    assert [la, lb][..1] == [la];
    assert LastSent([la]) == Some(lower);
    assert IsFirstDeny([la, lb], None, 1);
    assert IsWindow([la, lb], None, Some(b.logged), Some(lower));
  }

  /** Such calls exist: 50 us to the sidecar, 120 us round trip, and the prober preempted for 200 us
      between reading the round trip time and stamping the line. */
  lemma MissWitness() returns (a: Call, b: Call)
    ensures a.Valid() && b.Valid() && a.logged <= b.start && a.Got(200) && b.Got(403)
    ensures a.Overshoot() > a.arrival - a.start && a.arrival < b.arrival
  {
    UnixNanoInRange(320_000);
    UnixNanoInRange(20_130_000);
    a := Call(0, 50_000, 120_000, 320_000, Received(200, "ok"));
    b := Call(20_000_000, 20_050_000, 20_120_000, 20_130_000, Received(403, "denied"));
  }

  // ---- loss -------------------------------------------------------------

  /** The same line without its rtt. */
  function NoRtt(l: Line): Line {
    l.(fields := l.fields - {"rtt_us"})
  }

  /** Lines left of `full` after losing some lines and some rtts. */
  ghost predicate LeftOf(part: seq<Line>, full: seq<Line>) {
    forall i :: 0 <= i < |part| ==> IsLeft(part[i], full)
  }

  ghost predicate IsLeft(l: Line, full: seq<Line>) {
    exists k :: 0 <= k < |full| && (l == full[k] || l == NoRtt(full[k]))
  }

  /** The calls that were answered and whose body was read. */
  function Replies(calls: seq<Call>): seq<Call> {
    Filter(calls, IsReply)
  }

  predicate IsReply(c: Call) {
    c.result.Received?
  }

  lemma {:induction false} RepliesTrace(calls: seq<Call>)
    requires Trace(calls)
    ensures Trace(Replies(calls))
  {
    if calls == [] {
    } else {
      var init, last := calls[..|calls| - 1], calls[|calls| - 1];
      RepliesTrace(init);
      forall c | c in Replies(init) ensures c.logged <= last.start {
        FilterIn(init, IsReply, c);
      }
    }
  }

  lemma RepliesEnforced(calls: seq<Call>, tau: int, after: Option<int>)
    ensures Enforced(Replies(calls), tau, after) <==> Enforced(calls, tau, after)
  {
    forall c ensures c in Replies(calls) <==> c in calls && IsReply(c) {
      FilterIn(calls, IsReply, c);
    }
  }

  /** `full` is the whole recv log of some answered calls, line by line. */
  predicate RecvLog(full: seq<Line>, calls: seq<Call>) {
    |full| == |calls| && forall i :: 0 <= i < |full| ==> FullLine(full[i], calls[i])
  }

  lemma RecvLogDrawn(full: seq<Line>, calls: seq<Call>)
    requires RecvLog(full, calls)
    ensures DrawnFrom(full, calls)
  {
    forall i | 0 <= i < |full| ensures exists k :: 0 <= k < |calls| && Shows(full[i], calls[k]) {
      assert FullLine(full[i], calls[i]);
    }
  }

  lemma BoundsGrow(calls: seq<Call>, i: nat, j: nat)
    requires Trace(calls) && i <= j < |calls|
    ensures calls[i].logged <= calls[j].logged
    ensures calls[i].start + calls[i].Overshoot() <= calls[j].start + calls[j].Overshoot()
  {
    if i < j {
      assert calls[i].start + calls[i].Overshoot() <= calls[i].logged;
    }
  }

  /** A line that is left points back at its call. */
  lemma LeftShows(part: seq<Line>, full: seq<Line>, calls: seq<Call>, i: nat) returns (k: nat)
    requires LeftOf(part, full) && RecvLog(full, calls) && i < |part|
    ensures k < |calls| && Shows(part[i], calls[k]) && FullLine(full[k], calls[k])
  {
    assert IsLeft(part[i], full);
    k :| 0 <= k < |full| && (part[i] == full[k] || part[i] == NoRtt(full[k]));
    assert FullLine(full[k], calls[k]);
  }

  /** Losing lines never narrows the window: whatever became of the other calls, if what is left of the
      recv lines still gives a window, the whole log gives one inside it. (Both contain tau, by
      `Bracketing`, which needs no complete log.) */
  lemma LossOnlyWidens(
      calls: seq<Call>, full: seq<Line>, part: seq<Line>, tau: int, after: Option<int>,
      u: Option<int>, l: Option<int>, pu: Option<int>, pl: Option<int>)
    requires Trace(calls) && RecvLog(full, Replies(calls)) && LeftOf(part, full) && Enforced(calls, tau, after)
    requires IsWindow(full, after, u, l) && IsWindow(part, after, pu, pl) && pu.Some?
    ensures u.Some? && u.value <= pu.value
    ensures pl.Some? ==> l.Some? && pl.value <= l.value
  {
    RepliesTrace(calls);
    RepliesEnforced(calls, tau, after);
    LossAmongReplies(Replies(calls), full, part, tau, after, u, l, pu, pl);
  }

  lemma LossAmongReplies(
      calls: seq<Call>, full: seq<Line>, part: seq<Line>, tau: int, after: Option<int>,
      u: Option<int>, l: Option<int>, pu: Option<int>, pl: Option<int>)
    requires Trace(calls) && RecvLog(full, calls) && LeftOf(part, full) && Enforced(calls, tau, after)
    requires IsWindow(full, after, u, l) && IsWindow(part, after, pu, pl) && pu.Some?
    ensures u.Some? && u.value <= pu.value
    ensures pl.Some? ==> l.Some? && pl.value <= l.value
  {
    var j: nat :| IsFirstDeny(part, after, j) && part[j].stamp == At(pu.value) && pl == LastSent(part[..j]);
    var b := LeftShows(part, full, calls, j);
    ShownStatus(part[j], calls[b]);
    ShownStatus(full[b], calls[b]);
    assert IsDeny(full[b], after);
    var a: nat :| IsFirstDeny(full, after, a) && full[a].stamp == At(u.value) && l == LastSent(full[..a]);
    assert FullLine(full[a], calls[a]);
    BoundsGrow(calls, a, b);
    if pl.Some? {
      var i := LastSentFrom(part[..j]);
      assert part[..j][i] == part[i];
      var k := LeftShows(part, full, calls, i);
      ShownStatus(part[i], calls[k]);
      ShownStatus(full[k], calls[k]);
      ShownStatus(full[a], calls[a]);
      AllowedBeforeDeny(calls, tau, after, k, a);
      LowerAtLeast(calls, full, a, k);
    }
  }

  /** In a sequential trace every 200 comes before every eligible 403. */
  lemma AllowedBeforeDeny(calls: seq<Call>, tau: int, after: Option<int>, k: nat, a: nat)
    requires Trace(calls) && Enforced(calls, tau, after) && k < |calls| && a < |calls|
    requires calls[k].Got(200) && calls[a].Got(403) && (after.None? || calls[a].logged >= after.value)
    ensures k < a
  {
    assert calls[k] in calls && calls[a] in calls;
  }

  /** The bound before a 403 of the whole log is at least that of any 200 before it. */
  lemma LowerAtLeast(calls: seq<Call>, full: seq<Line>, a: nat, k: nat)
    requires Trace(calls) && RecvLog(full, calls) && k < a < |full| && calls[k].Got(200)
    ensures LastSent(full[..a]).Some? && calls[k].start + calls[k].Overshoot() <= LastSent(full[..a]).value
    decreases a
  {
    var lines := full[..a];
    assert lines[a - 1] == full[a - 1] && lines[..a - 1] == full[..a - 1];
    assert FullLine(full[a - 1], calls[a - 1]);
    ShownStatus(full[a - 1], calls[a - 1]);
    if calls[a - 1].Got(200) {
      BoundsGrow(calls, k, a - 1);
      DecimalValue(calls[a - 1].RttMicros());
    } else {
      LowerAtLeast(calls, full, a - 1, k);
    }
  }

  // ---- the whole log ----------------------------------------------------

  /** From the whole log the lower edge is that of the last 200. */
  lemma LowerIsLast(calls: seq<Call>, full: seq<Line>, tau: int, after: Option<int>, upper: int, lower: int, k: nat)
    requires Trace(calls) && RecvLog(full, calls) && Enforced(calls, tau, after) && IsLastAllowed(calls, k)
    requires IsWindow(full, after, Some(upper), Some(lower))
    ensures lower == calls[k].start + calls[k].Overshoot()
  {
    var a: nat :| IsFirstDeny(full, after, a) && full[a].stamp == At(upper) && Some(lower) == LastSent(full[..a]);
    assert FullLine(full[a], calls[a]);
    ShownStatus(full[a], calls[a]);
    AllowedBeforeDeny(calls, tau, after, k, a);
    var j := LastSentFrom(full[..a]);
    assert full[..a][j] == full[j] && FullLine(full[j], calls[j]) && FullLine(full[k], calls[k]);
    ShownStatus(full[j], calls[j]);
    ShownStatus(full[k], calls[k]);
    assert full[..a][k] == full[k];
    assert j == k;
  }

  /** When the script meets its comment: given the whole log of any trace, errored calls and all, the window
      is before every tau that explains the trace exactly when the bound of the last 200 that was read, its
      start plus its overshoot, is not after the arrival of the last 200. When the two are one call: when its
      overshoot is no longer than it took to arrive. */
  lemma WholeLogSafeIff(calls: seq<Call>, full: seq<Line>, rho: int, tau: int, after: Option<int>,
          upper: int, lower: int)
    returns (c: Call, k: nat)
    requires Trace(calls) && RecvLog(full, Replies(calls)) && Explains(calls, rho, tau, after)
    requires IsWindow(full, after, Some(upper), Some(lower))
    ensures IsLastRead(calls, c) && lower == c.start + c.Overshoot() && IsLastAllowed(calls, k)
    ensures SafeBound(calls, after, lower) <==> c.start + c.Overshoot() <= calls[k].arrival
    ensures c == calls[k] ==> (SafeBound(calls, after, lower) <==> c.Overshoot() <= c.arrival - c.start)
  {
    RepliesTrace(calls);
    ExplainsEnforced(calls, rho, tau, after);
    RepliesEnforced(calls, tau, after);
    RecvLogDrawn(full, Replies(calls));
    RepliesDrawn(full, calls);
    k := WindowSafeIff(calls, full, rho, tau, after, upper, lower);
    var d := Bracketing(Replies(calls), full, tau, after, Some(upper), Some(lower));
    var j := LastAllowed(Replies(calls), d);
    FilterIn(calls, IsReply, Replies(calls)[j]);
    LowerIsLast(Replies(calls), full, tau, after, upper, lower, j);
    c := Replies(calls)[j];
    LatestReply(calls, j);
  }

  /** The last 200 whose body was read. */
  predicate IsLastRead(calls: seq<Call>, c: Call) {
    c in calls && c.Got(200) && c.Valid() && forall d :: d in calls && d.Got(200) ==> d.arrival <= c.arrival
  }

  lemma RepliesDrawn(full: seq<Line>, calls: seq<Call>)
    requires DrawnFrom(full, Replies(calls))
    ensures DrawnFrom(full, calls)
  {
    forall i | 0 <= i < |full| && IsRecv(full[i]) ensures exists k :: 0 <= k < |calls| && Shows(full[i], calls[k]) {
      var j :| 0 <= j < |Replies(calls)| && Shows(full[i], Replies(calls)[j]);
      FilterIn(calls, IsReply, Replies(calls)[j]);
      var k :| 0 <= k < |calls| && calls[k] == Replies(calls)[j];
      assert Shows(full[i], calls[k]);
    }
  }

  lemma LatestReply(calls: seq<Call>, k: nat)
    requires Trace(Replies(calls)) && IsLastAllowed(Replies(calls), k) && Replies(calls)[k].Got(200)
    ensures IsLastRead(calls, Replies(calls)[k])
  {
    LatestArrival(Replies(calls), k);
    FilterIn(calls, IsReply, Replies(calls)[k]);
    forall d | d in calls && d.Got(200) ensures d.arrival <= Replies(calls)[k].arrival {
      FilterIn(calls, IsReply, d);
    }
  }

  // ---- a deny left over -------------------------------------------------

  /** The upper edge is a 403 of this trial's deny exactly when every 403 of the earlier deny, lifted at rho, was
      logged before T0: bounding the search by T0 is enough after a reset, and not after a missed one. */
  lemma LeftoversHarmlessIff(calls: seq<Call>, full: seq<Line>, rho: int, tau: int, after: Option<int>,
          upper: int, lower: Option<int>)
    returns (a: Call)
    requires Trace(calls) && RecvLog(full, Replies(calls)) && OldDeny(calls, rho, tau)
    requires IsWindow(full, after, Some(upper), lower)
    ensures a in calls && a.Got(403) && upper == a.logged
    ensures a.arrival >= tau <==> LeftoversEarly(calls, rho, after)
    ensures a.arrival < rho <==> !LeftoversEarly(calls, rho, after)
  {
    RepliesTrace(calls);
    var i: nat :| IsFirstDeny(full, after, i) && full[i].stamp == At(upper) && lower == LastSent(full[..i]);
    a := UpperCall(Replies(calls), full, after, i);
    FirstEligible(calls, rho, tau, after, a);
  }

  lemma FirstEligible(calls: seq<Call>, rho: int, tau: int, after: Option<int>, a: Call)
    requires OldDeny(calls, rho, tau) && a in Replies(calls) && Eligible(a, after)
    requires forall c :: c in Replies(calls) && Eligible(c, after) ==> a.arrival <= c.arrival
    ensures a in calls
    ensures a.arrival >= tau <==> LeftoversEarly(calls, rho, after)
    ensures a.arrival < rho <==> !LeftoversEarly(calls, rho, after)
  {
    FilterIn(calls, IsReply, a);
    assert a.Answered(403);
    if a.arrival >= tau {
      forall c | c in calls && c.Got(403) && c.arrival < rho ensures after.Some? && c.logged < after.value {
        FilterIn(calls, IsReply, c);
        assert !Eligible(c, after);
      }
    }
  }

  /** A 403 that may end the window. */
  predicate Eligible(c: Call, after: Option<int>) {
    c.Got(403) && (after.None? || c.logged >= after.value)
  }

  /** The call behind the upper edge is the first of its kind. */
  lemma UpperCall(calls: seq<Call>, full: seq<Line>, after: Option<int>, i: nat) returns (a: Call)
    requires Trace(calls) && RecvLog(full, calls) && IsFirstDeny(full, after, i)
    ensures a in calls && Eligible(a, after) && full[i].stamp == At(a.logged)
    ensures forall c :: c in calls && Eligible(c, after) ==> a.arrival <= c.arrival
  {
    a := calls[i];
    assert FullLine(full[i], a);
    ShownStatus(full[i], a);
    forall c | c in calls && Eligible(c, after) ensures a.arrival <= c.arrival {
      var k :| 0 <= k < |calls| && calls[k] == c;
      FirstDenyFirst(calls, full, after, i, k);
    }
  }

  lemma FirstDenyFirst(calls: seq<Call>, full: seq<Line>, after: Option<int>, i: nat, k: nat)
    requires Trace(calls) && RecvLog(full, calls) && IsFirstDeny(full, after, i)
    requires k < |calls| && Eligible(calls[k], after)
    ensures i <= k && calls[i].arrival <= calls[k].arrival
  {
    assert FullLine(full[k], calls[k]);
    ShownStatus(full[k], calls[k]);
    assert IsDeny(full[k], after);
  }
}
