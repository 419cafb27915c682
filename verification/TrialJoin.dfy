/** The offline join of scripts/trial_record.py: its loops as methods, against declarative contracts.
    A record is the dict of one parsed log line. */
module TrialJoin {
  import opened Common
  import opened Text
  import opened Logfmt
  import opened Rfc3339

  /** One parsed log line, with what `rfc3339_ns` makes of its time. */
  datatype Line = Line(fields: Record, stamp: Stamp) {
    function Get(k: string): Option<string> {
      if k in fields then Some(fields[k]) else None
    }
  }

  /** `rfc3339_ns(r.get("time", ""))`, attached to the record. */
  function Stamped(r: Record): Line {
    Line(r, Rfc3339Ns(if "time" in r then r["time"] else ""))
  }

  /** `read_lines` on a captured file. */
  function ReadLog(text: string): seq<Line> {
    Map(ReadLines(text), Stamped)
  }

  /** No stamp makes datetime.date raise, which the script does not catch. */
  predicate Readable(lines: seq<Line>) {
    forall i :: 0 <= i < |lines| ==> lines[i].stamp != Raises
  }

  // ---- find_actuation ---------------------------------------------------

  const FAILURES := ["Failed to actuate revocation in mesh", "Failed to decode SET"]

  predicate IsFailureMessage(r: Line) {
    r.Get("result").None? && r.Get("msg").Some? && r.Get("msg").value in FAILURES
  }

  predicate IsEvent(r: Line) {
    r.Get("result").Some? || IsFailureMessage(r)
  }

  predicate IsSample(r: Line) {
    r.Get("result") == Some("revoked")
  }

  predicate IsDeduped(r: Line) {
    r.Get("result") == Some("deduped")
  }

  predicate IsFailed(r: Line) {
    r.Get("result") == Some("failed") || IsFailureMessage(r)
  }

  /** `find_actuation`. */
  method FindActuation(records: seq<Line>)
    returns (sample: Option<Line>, nEvents: nat, nDeduped: nat, nFailed: nat)
    ensures sample == First(records, IsSample)
    ensures nEvents == Count(records, IsEvent) && nDeduped == Count(records, IsDeduped)
        && nFailed == Count(records, IsFailed)
  {
    sample, nEvents, nDeduped, nFailed := None, 0, 0, 0;
    for i := 0 to |records|
      invariant sample == First(records[..i], IsSample)
      invariant nEvents == Count(records[..i], IsEvent)
      invariant nDeduped == Count(records[..i], IsDeduped) && nFailed == Count(records[..i], IsFailed)
    {
      var r := records[i];
      assert records[..i + 1][..i] == records[..i];
      var result := r.Get("result");
      if result.None? {
        var msg := r.Get("msg");
        if msg.Some? && msg.value in FAILURES {
          nEvents := nEvents + 1;
          nFailed := nFailed + 1;
        }
        continue;
      }
      nEvents := nEvents + 1;
      if result.value == "revoked" && sample.None? {
        sample := Some(r);
      } else if result.value == "deduped" {
        nDeduped := nDeduped + 1;
      } else if result.value == "failed" {
        nFailed := nFailed + 1;
      }
    }
    assert records[..|records|] == records;
  }

  // ---- trial_window_start, within_trial ---------------------------------

  /** Some stamped line has exactly this time, and none is earlier. */
  predicate IsEarliest(records: seq<Line>, ns: int) {
    && (exists i :: 0 <= i < |records| && records[i].stamp == At(ns))
    && (forall i :: 0 <= i < |records| && records[i].stamp.At? ==> ns <= records[i].stamp.ns)
  }

  /** `trial_window_start`: the minimum over a comprehension; NoStamp for None. */
  function WindowStart(records: seq<Line>): (start: Stamp)
    ensures start.Raises? <==> !Readable(records)
    ensures start.NoStamp? ==> forall i :: 0 <= i < |records| ==> records[i].stamp == NoStamp
    ensures start.At? ==> IsEarliest(records, start.ns)
  {
    if records == [] then NoStamp
    else
      var init, t := records[..|records| - 1], records[|records| - 1].stamp;
      assert forall i :: 0 <= i < |init| ==> init[i] == records[i];
      var rest := WindowStart(init);
      if rest.Raises? || t.Raises? then Raises
      else if rest.At? && (t.NoStamp? || rest.ns <= t.ns) then
        (assert exists i :: 0 <= i < |init| && records[i].stamp == At(rest.ns); rest)
      else t
  }

  /** The bound handed to `within_trial`. */
  function Bound(start: Stamp): Option<int> {
    if start.At? then Some(start.ns) else None
  }

  /** The lines the window keeps. */
  function InWindow(start: Option<int>): Line -> bool {
    (r: Line) => start.None? || (r.stamp.At? && r.stamp.ns >= start.value)
  }

  /** `within_trial`. */
  method WithinTrial(records: seq<Line>, start: Option<int>) returns (raised: bool, kept: seq<Line>)
    ensures raised <==> start.Some? && !Readable(records)
    ensures !raised ==> kept == Filter(records, InWindow(start))
  {
    if start.None? {
      FilterAll(records, InWindow(start));
      return false, records;
    }
    raised, kept := false, [];
    for i := 0 to |records|
      invariant !raised && kept == Filter(records[..i], InWindow(start))
      invariant forall k :: 0 <= k < i ==> records[k].stamp != Raises
    {
      assert records[..i + 1][..i] == records[..i];
      var t := records[i].stamp;
      if t.Raises? {
        return true, [];
      }
      if t.At? && t.ns >= start.value {
        kept := kept + [records[i]];
      }
    }
    assert records[..|records|] == records;
  }

  /** The actuator's log at the end of a trial: what earlier trials left, then this trial's lines. If the
      earlier lines are unstamped or precede the window and this trial's do not, the window cuts the
      log exactly there, so `find_actuation` sees this trial alone. */
  lemma TrialIsolated(earlier: seq<Line>, own: seq<Line>, start: int)
    requires forall r :: r in earlier ==> !InWindow(Some(start))(r)
    requires forall r :: r in own ==> InWindow(Some(start))(r)
    ensures Filter(earlier + own, InWindow(Some(start))) == own
  {
    FilterAppend(earlier, own, InWindow(Some(start)));
    FilterNone(earlier, InWindow(Some(start)));
    FilterAll(own, InWindow(Some(start)));
  }

  /** Without the bound, the first trial that revoked provides the sample of every later one, and the
      counts are those of the whole run. */
  lemma UnboundedRepeatsFirst(earlier: seq<Line>, own: seq<Line>)
    ensures First(earlier, IsSample).Some?
        ==> First(Filter(earlier + own, InWindow(None)), IsSample) == First(earlier, IsSample)
    ensures Count(Filter(earlier + own, InWindow(None)), IsEvent) == Count(earlier, IsEvent) + Count(own, IsEvent)
  {
    FilterAll(earlier + own, InWindow(None));
    FirstAppend(earlier, own, IsSample);
    CountAppend(earlier, own, IsEvent);
  }

  // ---- find_deny_window -------------------------------------------------

  /** A stamped `recv` line. */
  predicate IsRecv(r: Line) {
    r.Get("msg") == Some("recv") && r.stamp.At?
  }

  predicate IsAllowed(r: Line) {
    IsRecv(r) && r.Get("status") == Some("200")
  }

  /** A 403 that may end the window. */
  predicate IsDeny(r: Line, after: Option<int>) {
    IsRecv(r) && r.Get("status") == Some("403") && (after.None? || r.stamp.ns >= after.value)
  }

  /** The send-time bound of a 200 line; None when it carries no usable rtt. */
  function SentAt(r: Line): Option<int>
    requires IsRecv(r)
  {
    var rtt := r.Get("rtt_us");
    if rtt.Some? && rtt.value != "" && AllDigits(rtt.value) then Some(r.stamp.ns - Value(rtt.value) * 1000) else None
  }

  /** The bound of the last 200 line. */
  function LastSent(records: seq<Line>): Option<int> {
    if records == [] then None
    else if IsAllowed(records[|records| - 1]) then SentAt(records[|records| - 1])
    else LastSent(records[..|records| - 1])
  }

  /** Where the first eligible 403 is. */
  predicate IsFirstDeny(records: seq<Line>, after: Option<int>, i: nat) {
    i < |records| && IsDeny(records[i], after) && forall k :: 0 <= k < i ==> !IsDeny(records[k], after)
  }

  /** `find_deny_window`: the stamp of the first eligible 403, and the bound of the last 200 before it. */
  ghost predicate IsWindow(records: seq<Line>, after: Option<int>, upper: Option<int>, lower: Option<int>) {
    match upper
    case None => lower.None? && forall i :: 0 <= i < |records| ==> !IsDeny(records[i], after)
    case Some(t) =>
      exists i: nat :: IsFirstDeny(records, after, i) && records[i].stamp == At(t) && lower == LastSent(records[..i])
  }

  /** A `recv` line whose stamp raises comes before any eligible 403. */
  predicate DenyRaises(records: seq<Line>, after: Option<int>) {
    exists i :: 0 <= i < |records| && Unreadable(records[i]) && forall k :: 0 <= k < i ==> !IsDeny(records[k], after)
  }

  predicate Unreadable(r: Line) {
    r.Get("msg") == Some("recv") && r.stamp.Raises?
  }

  method FindDenyWindow(records: seq<Line>, after: Option<int>)
    returns (raised: bool, upper: Option<int>, lower: Option<int>)
    ensures raised <==> DenyRaises(records, after)
    ensures !raised ==> IsWindow(records, after, upper, lower)
  {
    lower := None;
    for i := 0 to |records|
      invariant lower == LastSent(records[..i])
      invariant forall k :: 0 <= k < i ==> !IsDeny(records[k], after) && !Unreadable(records[k])
    {
      assert records[..i + 1][..i] == records[..i];
      var r := records[i];
      if r.Get("msg") != Some("recv") {
        continue;
      }
      var t := r.stamp;
      if t.Raises? {
        return true, None, None;
      }
      if t.NoStamp? {
        continue;
      }
      var status := r.Get("status");
      if status == Some("200") {
        var rtt := if "rtt_us" in r.fields then r.fields["rtt_us"] else "";
        lower := if rtt != "" && AllDigits(rtt) then Some(t.ns - Value(rtt) * 1000) else None;
      } else if status == Some("403") && (after.None? || t.ns >= after.value) {
        assert IsFirstDeny(records, after, i);
        return false, Some(t.ns), lower;
      }
    }
    return false, None, None;
  }

  /** The contract leaves one answer. */
  lemma WindowUnique(records: seq<Line>, after: Option<int>, u1: Option<int>, l1: Option<int>, u2: Option<int>,
          l2: Option<int>)
    requires IsWindow(records, after, u1, l1) && IsWindow(records, after, u2, l2)
    ensures u1 == u2 && l1 == l2
  {
    if u1.Some? && u2.Some? {
      var i: nat :| IsFirstDeny(records, after, i) && records[i].stamp == At(u1.value) && l1 == LastSent(records[..i]);
      var j: nat :| IsFirstDeny(records, after, j) && records[j].stamp == At(u2.value) && l2 == LastSent(records[..j]);
      assert i == j;
    }
  }

  /** The window, line by line. */
  function Window(records: seq<Line>, after: Option<int>): (Option<int>, Option<int>) {
    if records == [] then (None, None)
    else
      var init, last := records[..|records| - 1], records[|records| - 1];
      if Window(init, after).0.Some? then Window(init, after)
      else if IsDeny(last, after) then (Some(last.stamp.ns), LastSent(init))
      else (None, None)
  }

  lemma {:induction false} WindowIs(records: seq<Line>, after: Option<int>)
    ensures IsWindow(records, after, Window(records, after).0, Window(records, after).1)
  {
    if records == [] {
    } else {
      var n := |records| - 1;
      WindowIs(records[..n], after);
      WindowGrows(records[..n], records[n], after, Window(records[..n], after).0, Window(records[..n], after).1);
      assert records == records[..n] + [records[n]];
    }
  }

  lemma WindowGrows(records: seq<Line>, r: Line, after: Option<int>, upper: Option<int>, lower: Option<int>)
    requires IsWindow(records, after, upper, lower)
    ensures upper.Some? ==> IsWindow(records + [r], after, upper, lower)
    ensures upper.None? && IsDeny(r, after) ==> IsWindow(records + [r], after, Some(r.stamp.ns), LastSent(records))
    ensures upper.None? && !IsDeny(r, after) ==> IsWindow(records + [r], after, None, None)
  {
    var all := records + [r];
    if upper.Some? {
      var i: nat :| IsFirstDeny(records, after, i) && records[i].stamp == At(upper.value)
                    && lower == LastSent(records[..i]);
      assert all[..i] == records[..i];
      assert IsFirstDeny(all, after, i);
    } else if IsDeny(r, after) {
      assert all[..|records|] == records;
      assert IsFirstDeny(all, after, |records|);
    }
  }

  lemma {:induction false} RecvOnly(records: seq<Line>, after: Option<int>)
    ensures LastSent(Filter(records, IsRecv)) == LastSent(records)
    ensures Window(Filter(records, IsRecv), after) == Window(records, after)
  {
    if records == [] {
    } else {
      var init, last := records[..|records| - 1], records[|records| - 1];
      var kept := Filter(init, IsRecv);
      RecvOnly(init, after);
      if IsRecv(last) {
        assert (kept + [last])[..|kept|] == kept;
      } else {
        assert Filter(records, IsRecv) == kept;
      }
    }
  }

  /** Lines other than stamped `recv` lines do not move the window. */
  lemma RecvDecides(records: seq<Line>, after: Option<int>, upper: Option<int>, lower: Option<int>)
    ensures IsWindow(Filter(records, IsRecv), after, upper, lower) <==> IsWindow(records, after, upper, lower)
  {
    var w, v := Window(records, after), Window(Filter(records, IsRecv), after);
    RecvOnly(records, after);
    WindowIs(records, after);
    WindowIs(Filter(records, IsRecv), after);
    if IsWindow(records, after, upper, lower) {
      WindowUnique(records, after, upper, lower, w.0, w.1);
    }
    if IsWindow(Filter(records, IsRecv), after, upper, lower) {
      WindowUnique(Filter(records, IsRecv), after, upper, lower, v.0, v.1);
    }
  }

  // ---- the row ----------------------------------------------------------

  /** The timing columns of one CSV row, in nanoseconds; None is an empty cell. */
  datatype Row = Row(
    t0: Option<int>, t6: Option<int>, t8: Option<int>, t8Lo: Option<int>, win: Option<int>,
    pipeline: Option<int>, enforce: Option<int>, enforceMid: Option<int>,
    endToEnd: Option<int>, endToEndMid: Option<int>, result: string)

  predicate Halfway(lo: int, mid: int, hi: int) {
    mid - lo <= hi - mid <= mid - lo + 1
  }

  /** Filled only when both ends are known, and then their difference. */
  predicate IsSpan(cell: Option<int>, start: Option<int>, stop: Option<int>) {
    cell == if start.Some? && stop.Some? then Some(stop.value - start.value) else None
  }

  /** What a row says of a sample's stamps and a deny window: every span runs between known ends, the
      two parts add up to the whole, and the mid columns appear with a proper bracket only. */
  predicate Joined(row: Row, mid: Option<int>, sampled: bool, t0: Option<int>, t6: Option<int>, t8: Option<int>,
          t8Lo: Option<int>) {
    && row.t0 == t0 && row.t6 == t6 && row.t8 == t8
    && IsSpan(row.pipeline, t0, t6) && IsSpan(row.enforce, t6, t8) && IsSpan(row.endToEnd, t0, t8)
    && (row.pipeline.Some? && row.enforce.Some? ==> row.endToEnd == Some(row.pipeline.value + row.enforce.value))
    && (mid.Some? <==> t8.Some? && t8Lo.Some? && t8Lo.value < t8.value)
    && (mid.Some? ==> row.t8Lo == t8Lo && IsSpan(row.win, t8Lo, t8) && Halfway(t8Lo.value, mid.value, t8.value))
    && (mid.None? ==> row.t8Lo.None? && row.win.None?)
    && IsSpan(row.enforceMid, t6, mid) && IsSpan(row.endToEndMid, t0, mid)
    && row.result == if !sampled then "no_revocation" else if t8.None? then "no_deny" else "revoked"
  }

  /** The row assembly of `main`, from the sample's stamps and the deny window. */
  method AssembleRow(sampled: bool, t0: Option<int>, t6: Option<int>, t8: Option<int>, t8Lo: Option<int>)
    returns (row: Row, mid: Option<int>)
    requires !sampled ==> t0.None? && t6.None?
    ensures Joined(row, mid, sampled, t0, t6, t8, t8Lo)
  {
    row := Row(None, None, None, None, None, None, None, None, None, None, "");
    if sampled {
      row := row.(t0 := t0, t6 := t6);
      if t0.Some? && t6.Some? {
        row := row.(pipeline := Some(t6.value - t0.value));
      }
    }
    mid := None;
    if t8.Some? {
      row := row.(t8 := t8);
      if t8Lo.Some? && t8Lo.value < t8.value {
        row := row.(t8Lo := t8Lo, win := Some(t8.value - t8Lo.value));
        mid := Some((t8Lo.value + t8.value) / 2);
      }
      if t6.Some? {
        row := row.(enforce := Some(t8.value - t6.value));
        if mid.Some? {
          row := row.(enforceMid := Some(mid.value - t6.value));
        }
      }
      if t0.Some? {
        row := row.(endToEnd := Some(t8.value - t0.value));
        if mid.Some? {
          row := row.(endToEndMid := Some(mid.value - t0.value));
        }
      }
    }
    row := row.(result := if !sampled then "no_revocation" else if t8.None? then "no_deny" else "revoked");
  }

  /** Half the window, rounded up, bounds how far the midpoint is from any instant inside. */
  lemma MidpointError(lo: int, mid: int, hi: int, tau: int)
    requires Halfway(lo, mid, hi) && lo < tau <= hi
    ensures mid - tau < (hi - lo + 1) / 2 && tau - mid <= (hi - lo + 1) / 2
  {}
}
