/** What scripts/trial_record.py makes of any parsed log, line by line and with its literals spelled out, whoever
    printed it: which lines it counts, keeps and takes for the edges of the deny window. */
module JoinRules {
  import opened Common
  import opened Text
  import opened Logfmt
  import opened Rfc3339
  import opened TrialJoin
  import opened Record

  predicate Has(r: Line, k: string, v: string) {
    k in r.fields && r.fields[k] == v
  }

  /** The two lines of events that failed before they had a result. */
  predicate Unresulted(r: Line) {
    && "result" !in r.fields
    && (Has(r, "msg", "Failed to actuate revocation in mesh") || Has(r, "msg", "Failed to decode SET"))
  }

  /** What `find_actuation` counts: every line with a result and the two failure lines; a failure line that has a
      result counts by its result alone. */
  lemma {:induction false} EventsAre(records: seq<Line>)
    ensures Count(records, IsEvent) == Count(records, (r: Line) => "result" in r.fields || Unresulted(r))
    ensures Count(records, IsDeduped) == Count(records, (r: Line) => Has(r, "result", "deduped"))
    ensures Count(records, IsFailed) == Count(records, (r: Line) => Has(r, "result", "failed") || Unresulted(r))
    ensures First(records, IsSample) == First(records, (r: Line) => Has(r, "result", "revoked"))
  {
    if records == [] {
    } else {
      EventsAre(records[..|records| - 1]);
    }
  }

  /** Every event is a sample candidate, a repeat, a failure, or has some other result. */
  lemma {:induction false} EventsAddUp(records: seq<Line>)
    ensures Count(records, IsEvent)
         == Count(records, IsSample) + Count(records, IsDeduped) + Count(records, IsFailed)
            + Count(records, (r: Line) =>
                "result" in r.fields && r.fields["result"] !in ["revoked", "deduped", "failed"])
  {
    if records == [] {
    } else {
      EventsAddUp(records[..|records| - 1]);
    }
  }

  /** A line's time is what its `time` field reads as; without the field it has none. */
  lemma StampOf(r: Logfmt.Record)
    ensures Stamped(r).fields == r
    ensures Stamped(r).stamp == if "time" in r then Rfc3339Ns(r["time"]) else NoStamp
  {
    if "time" !in r {
      assert Rfc3339Ns("") == NoStamp;
    }
  }

  /** `within_trial` keeps, of a bounded trial, exactly the lines stamped at or after the bound, in order. */
  lemma {:induction false} Kept(records: seq<Line>, start: int)
    ensures Filter(records, InWindow(Bound(At(start))))
         == Filter(records, (r: Line) => r.stamp.At? && start <= r.stamp.ns)
    ensures Filter(records, InWindow(Bound(NoStamp))) == records
  {
    FilterAll(records, InWindow(Bound(NoStamp)));
    if records == [] {
    } else {
      Kept(records[..|records| - 1], start);
    }
  }

  // ---- the deny window --------------------------------------------------

  /** A `recv` line with this status, stamped at `ns`. */
  predicate Probe(r: Line, status: string, ns: int) {
    Has(r, "msg", "recv") && Has(r, "status", status) && r.stamp == At(ns)
  }

  /** Line `k` is the last 200 among the first `n` lines. */
  predicate LastOk(records: seq<Line>, n: nat, k: nat) {
    && k < n <= |records| && records[k].stamp.At? && Probe(records[k], "200", records[k].stamp.ns)
    && forall j :: k < j < n && records[j].stamp.At? ==> !Probe(records[j], "200", records[j].stamp.ns)
  }

  /** No 200 is among the first `n` lines. */
  predicate NoOk(records: seq<Line>, n: nat)
    requires n <= |records|
  {
    forall j :: 0 <= j < n && records[j].stamp.At? ==> !Probe(records[j], "200", records[j].stamp.ns)
  }

  /** The send-time bound a 200 line gives: its stamp less its `rtt_us`; none when that is missing or no number. */
  predicate Sent(r: Line, bound: Option<int>)
    requires r.stamp.At?
  {
    if "rtt_us" in r.fields && r.fields["rtt_us"] != "" && AllDigits(r.fields["rtt_us"]) then
      bound == Some(r.stamp.ns - 1_000 * Value(r.fields["rtt_us"]))
    else bound.None?
  }

  lemma {:induction false} LastBound(records: seq<Line>, n: nat) returns (k: nat)
    requires n <= |records|
    ensures NoOk(records, n) ==> LastSent(records[..n]).None?
    ensures !NoOk(records, n) ==> LastOk(records, n, k) && Sent(records[k], LastSent(records[..n]))
  {
    k := 0;
    if n == 0 {
    } else {
      assert records[..n][..n - 1] == records[..n - 1] && records[..n][n - 1] == records[n - 1];
      if IsAllowed(records[n - 1]) {
        k := n - 1;
        assert Probe(records[k], "200", records[k].stamp.ns);
      } else {
        k := LastBound(records, n - 1);
      }
    }
  }

  /** The first stamped 403 from T0 on ends the window, at its stamp; the last 200 before it starts it, at the send
      time its rtt gives, and not at all if it has none. Without such a 403 there is no window. */
  lemma WindowEdges(records: seq<Line>, after: Option<int>, upper: Option<int>, lower: Option<int>)
    returns (i: nat, k: nat)
    requires IsWindow(records, after, upper, lower)
    ensures upper.Some? ==>
              && i < |records| && Probe(records[i], "403", upper.value) && (after.Some? ==> after.value <= upper.value)
              && (forall j, t :: 0 <= j < i && Probe(records[j], "403", t) ==> after.Some? && t < after.value)
              && if NoOk(records, i) then lower.None? else LastOk(records, i, k) && Sent(records[k], lower)
    ensures upper.None? ==>
              && lower.None?
              && forall j, t :: 0 <= j < |records| && Probe(records[j], "403", t) ==> after.Some? && t < after.value
  {
    i, k := 0, 0;
    if upper.Some? {
      i :| IsFirstDeny(records, after, i) && records[i].stamp == At(upper.value) && lower == LastSent(records[..i]);
      forall j, t | 0 <= j < i && Probe(records[j], "403", t) ensures after.Some? && t < after.value {
        assert !IsDeny(records[j], after);
      }
      k := LastBound(records, i);
    } else {
      forall j, t | 0 <= j < |records| && Probe(records[j], "403", t) ensures after.Some? && t < after.value {
        assert !IsDeny(records[j], after);
      }
    }
  }

  // ---- when the script dies ---------------------------------------------

  /** A `recv` line with an impossible month or year zero comes before any 403 that would end the window. */
  ghost predicate BadProbe(prober: seq<Line>, after: Option<int>, i: nat) {
    && i < |prober| && Has(prober[i], "msg", "recv") && prober[i].stamp == Raises
    && forall j, t :: 0 <= j < i && Probe(prober[j], "403", t) ==> after.Some? && t < after.value
  }

  /** The sample's field is there and no integer. */
  predicate NoInteger(sample: Option<Line>, k: string) {
    sample.Some? && k in sample.value.fields && IntOf(sample.value.fields[k]).None?
  }

  /** The script dies of a bad stamp it looks at, or of a T0 or T6 that is no integer, and of nothing else: without
      a bound it looks at no actuator stamp, and never at a probe behind the 403 it took. */
  lemma DiesIff(actuator: seq<Line>, prober: seq<Line>, start: Stamp)
    ensures var sample := First(Own(actuator, start), IsSample);
            Dies(actuator, prober, start) <==>
              || start == Raises
              || (start.At? && exists i :: 0 <= i < |actuator| && actuator[i].stamp == Raises)
              || NoInteger(sample, "t0_ns") || NoInteger(sample, "t6_ns")
              || exists i :: BadProbe(prober, Instant(sample, "t0_ns"), i)
  {
    var after := Instant(First(Own(actuator, start), IsSample), "t0_ns");
    BadProbeIff(prober, after);
  }

  lemma BadProbeIff(prober: seq<Line>, after: Option<int>)
    ensures DenyRaises(prober, after) <==> exists i :: BadProbe(prober, after, i)
  {
    if DenyRaises(prober, after) {
      var i :| 0 <= i < |prober| && Unreadable(prober[i]) && forall k :: 0 <= k < i ==> !IsDeny(prober[k], after);
      forall j, t | 0 <= j < i && Probe(prober[j], "403", t) ensures after.Some? && t < after.value {
        assert !IsDeny(prober[j], after);
      }
      assert BadProbe(prober, after, i);
    }
    if i: nat :| BadProbe(prober, after, i) {
      forall k | 0 <= k < i ensures !IsDeny(prober[k], after) {
        if IsRecv(prober[k]) && prober[k].Get("status") == Some("403") {
          assert Probe(prober[k], "403", prober[k].stamp.ns);
        }
      }
      assert Unreadable(prober[i]);
    }
  }
}
