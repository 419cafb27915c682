/** What the actuator's log says of one event, key by key: its note on arrival, the lines of the label strip and
    its outcome line, with the texts of the source spelled out. */
module LogLines {
  import opened Common
  import opened Text
  import opened Json
  import opened Identity
  import opened Policy
  import opened Logfmt
  import opened Rfc3339
  import opened Spans
  import opened Labels
  import opened Protocol
  import opened Accounting
  import opened Actuator

  // ---- outcome lines ----------------------------------------------------

  /** Every clock or duration column ends in "_ns" or "_us". */
  lemma NoSuchColumn(c: Clocks, k: string)
    requires k == "" || k[|k| - 1] != 's'
    ensures Lookup(Attrs(c), k).None?
  {
    AttrsKeys(c, k);
    LookupHasKey(Attrs(c), k);
    forall i | 0 <= i < |SpanTable(c)| ensures UsKey(SpanTable(c)[i].stage) != k {
      UsEnd(SpanTable(c)[i].stage);
    }
  }

  lemma UsEnd(stage: string)
    ensures UsKey(stage) != "" && UsKey(stage)[|UsKey(stage)| - 1] == 's'
  {}

  lemma BesideColumns(head: Pairs, c: Clocks, k: string)
    ensures k == "" || k[|k| - 1] != 's' ==> Lookup(head + Attrs(c), k) == Lookup(head, k)
    ensures Lookup(head, k).None? ==> Lookup(head + Attrs(c), k) == Lookup(Attrs(c), k)
  {
    LookupAppend(head, Attrs(c), k);
    if k == "" || k[|k| - 1] != 's' {
      NoSuchColumn(c, k);
    }
  }

  /** A body that is no SET. */
  lemma GarbledLine(policyRef: string, o: Outcome, r: Reading, k: string)
    requires InRange(r.time)
    ensures Lookup(OutcomeLine(policyRef, Garbled, o, r), k)
         == if k == "time" then Some(Format(r.time)) else if k == "level" then Some("ERROR")
            else if k == "msg" then Some("Failed to decode SET") else if k == "error" then Some(r.error) else None
  {
    LookupStamped(r, "ERROR", NOT_DECODED, k);
    LookupSnoc(Protocol.Stamped(r, "ERROR", NOT_DECODED), ("error", r.error), k);
  }

  lemma FailureFields(error: string, subject: string, jti: string, k: string)
    ensures Lookup([("error", error), ("subject", subject), ("jti", jti)], k)
         == if k == "error" then Some(error) else if k == "subject" then Some(subject) else if k == "jti" then Some(jti)
            else None
  {
    LookupThree(("error", error), ("subject", subject), ("jti", jti), k);
  }

  /** An event that failed: the error, whose event it was, and no result. */
  lemma FailedLine(policyRef: string, body: Body, r: Reading, k: string)
    requires InRange(r.time) && body.Decoded?
    ensures Lookup(OutcomeLine(policyRef, body, Failed, r), k)
         == if k == "time" then Some(Format(r.time)) else if k == "level" then Some("ERROR")
            else if k == "msg" then Some("Failed to actuate revocation in mesh")
            else if k == "error" then Some(r.error)
            else if k == "subject" then Some(body.subject) else if k == "jti" then Some(body.jti) else None
  {
    var head, tail := Protocol.Stamped(r, "ERROR", NOT_ACTUATED),
                      [("error", r.error), ("subject", body.subject), ("jti", body.jti)];
    LookupStamped(r, "ERROR", NOT_ACTUATED, k);
    FailureFields(r.error, body.subject, body.jti, k);
    LookupAppend(head, tail, k);
  }

  function AnsweredText(r: Reading, msg: string, jti: string, subject: string, policy: string, result: string): Pairs
    requires InRange(r.time)
  {
    Protocol.Stamped(r, "INFO", msg) + [("jti", jti), ("subject", subject), ("policy", policy), ("result", result)]
  }

  lemma AnsweredHead(
    r: Reading, msg: string, jti: string, subject: string, policy: string, result: string, k: string)
    requires InRange(r.time)
    ensures Lookup(AnsweredText(r, msg, jti, subject, policy, result), k)
         == if k == "time" then Some(Format(r.time)) else if k == "level" then Some("INFO")
            else if k == "msg" then Some(msg)
            else if k == "jti" then Some(jti) else if k == "subject" then Some(subject)
            else if k == "policy" then Some(policy) else if k == "result" then Some(result) else None
  {
    LookupStamped(r, "INFO", msg, k);
    LookupAnswer(jti, subject, policy, result, k);
    LookupAppend(Protocol.Stamped(r, "INFO", msg),
        [("jti", jti), ("subject", subject), ("policy", policy), ("result", result)], k);
  }

  lemma AnsweredIs(policyRef: string, body: Body, o: Outcome, r: Reading)
    requires InRange(r.time) && body.Decoded? && !o.Failed?
    ensures OutcomeLine(policyRef, body, o, r)
         == AnsweredText(r, if o.Revoked? then ACTUATED else SKIPPED, body.jti, body.subject, policyRef, ResultText(o))
            + Attrs(ClocksOf(body, r.Own()))
  {}

  lemma AnsweredParts(policyRef: string, body: Body, o: Outcome, r: Reading, k: string)
    requires InRange(r.time) && body.Decoded? && !o.Failed?
    ensures var line := OutcomeLine(policyRef, body, o, r);
            var text := AnsweredText(r, if o.Revoked? then ACTUATED else SKIPPED, body.jti, body.subject, policyRef,
                                     ResultText(o));
            && (k == "" || k[|k| - 1] != 's' ==> Lookup(line, k) == Lookup(text, k))
            && (Lookup(text, k).None? ==> Lookup(line, k) == Lookup(Attrs(ClocksOf(body, r.Own())), k))
  {
    var text := AnsweredText(r, if o.Revoked? then ACTUATED else SKIPPED, body.jti, body.subject, policyRef,
                             ResultText(o));
    AnsweredIs(policyRef, body, o, r);
    BesideColumns(text, ClocksOf(body, r.Own()), k);
  }

  lemma AnsweredAt(policyRef: string, body: Body, o: Outcome, r: Reading, k: string, v: Option<string>)
    requires InRange(r.time) && body.Decoded? && !o.Failed? && (k == "" || k[|k| - 1] != 's')
    requires v == Lookup(AnsweredText(r, if o.Revoked? then ACTUATED else SKIPPED, body.jti, body.subject, policyRef,
                                      ResultText(o)), k)
    ensures Lookup(OutcomeLine(policyRef, body, o, r), k) == v
  {
    AnsweredParts(policyRef, body, o, r, k);
  }

  /** An event that was revoked or deduped: what it was, whose, where, and no error. */
  lemma AnsweredLine(policyRef: string, body: Body, o: Outcome, r: Reading)
    requires InRange(r.time) && body.Decoded? && !o.Failed?
    ensures forall kv ::
              kv in [("time", Format(r.time)), ("level", "INFO"),
                     ("msg", if o.Revoked? then "Revocation actuated in mesh"
                             else "Subject already revoked, mesh patch skipped"),
                     ("jti", body.jti), ("subject", body.subject), ("policy", policyRef),
                     ("result", if o.Revoked? then "revoked" else "deduped")]
              ==> Lookup(OutcomeLine(policyRef, body, o, r), kv.0) == Some(kv.1)
    ensures Lookup(OutcomeLine(policyRef, body, o, r), "error").None?
  {
    var msg, result := if o.Revoked? then ACTUATED else SKIPPED, ResultText(o);
    forall kv | kv in [("time", Format(r.time)), ("level", "INFO"), ("msg", msg), ("jti", body.jti),
                       ("subject", body.subject), ("policy", policyRef), ("result", result)]
      ensures Lookup(OutcomeLine(policyRef, body, o, r), kv.0) == Some(kv.1)
    {
      AnsweredHead(r, msg, body.jti, body.subject, policyRef, result, kv.0);
      AnsweredAt(policyRef, body, o, r, kv.0, Some(kv.1));
    }
    AnsweredHead(r, msg, body.jti, body.subject, policyRef, result, "error");
    AnsweredAt(policyRef, body, o, r, "error", None);
  }

  /** And its clock and span columns: those of T0, T1, T3 off the event and T4, T5, T6 of the handler. */
  lemma AnsweredColumns(policyRef: string, body: Body, o: Outcome, r: Reading, k: string)
    requires InRange(r.time) && body.Decoded? && !o.Failed? && k != "" && k[|k| - 1] == 's'
    ensures Lookup(OutcomeLine(policyRef, body, o, r), k)
         == Lookup(Attrs(Clocks(body.t0, body.t1, body.t3, Some(r.t4), Some(r.t5), Some(r.t6))), k)
  {
    NoAnswer(r, if o.Revoked? then ACTUATED else SKIPPED, body.jti, body.subject, policyRef, ResultText(o), k);
    AnsweredParts(policyRef, body, o, r, k);
  }

  lemma NoAnswer(r: Reading, msg: string, jti: string, subject: string, policy: string, result: string, k: string)
    requires InRange(r.time) && k != "" && k[|k| - 1] == 's'
    ensures Lookup(AnsweredText(r, msg, jti, subject, policy, result), k).None?
  {
    OtherEnd("time", k);
    OtherEnd("level", k);
    OtherEnd("msg", k);
    OtherEnd("jti", k);
    OtherEnd("subject", k);
    OtherEnd("policy", k);
    OtherEnd("result", k);
    AnsweredHead(r, msg, jti, subject, policy, result, k);
  }

  lemma OtherEnd(a: string, b: string)
    requires a != "" && b != "" && a[|a| - 1] != b[|b| - 1]
    ensures a != b
  {}

  // ---- the note on arrival and the label strip --------------------------

  /** The note on arrival; a missing T0 is logged as zero. */
  lemma CompromisedLine(body: Body, time: int, k: string)
    requires body.Decoded? && InRange(time)
    ensures Lookup(Compromised(body, time), k)
         == if k == "time" then Some(Format(time)) else if k == "level" then Some("INFO")
            else if k == "msg" then Some("Subject compromised:") else if k == "SPIFFE Subject" then Some(body.subject)
            else if k == "jti" then Some(body.jti)
            else if k == "t0_ns" then Some(if body.t0.Some? then IntText(body.t0.value) else "0") else None
  {
    var t0 := IntText(if body.t0.Some? then body.t0.value else 0);
    assert IntText(0) == "0";
    NoteFields(Format(time), body.subject, body.jti, t0, k);
  }

  lemma NoteFields(time: string, subject: string, jti: string, t0: string, k: string)
    ensures Lookup([("time", time), ("level", "INFO"), ("msg", "Subject compromised:"), ("SPIFFE Subject", subject),
                    ("jti", jti), ("t0_ns", t0)], k)
         == if k == "time" then Some(time) else if k == "level" then Some("INFO")
            else if k == "msg" then Some("Subject compromised:") else if k == "SPIFFE Subject" then Some(subject)
            else if k == "jti" then Some(jti) else if k == "t0_ns" then Some(t0) else None
  {
    var head, tail := [("time", time), ("level", "INFO"), ("msg", "Subject compromised:")],
                      [("SPIFFE Subject", subject), ("jti", jti), ("t0_ns", t0)];
    assert [("time", time), ("level", "INFO"), ("msg", "Subject compromised:"), ("SPIFFE Subject", subject),
            ("jti", jti), ("t0_ns", t0)] == head + tail;
    LookupAppend(head, tail, k);
    LookupThree(head[0], head[1], head[2], k);
    LookupThree(tail[0], tail[1], tail[2], k);
  }

  lemma FiveFields(time: string, level: string, msg: string, d: (string, string), e: (string, string), k: string)
    ensures Lookup([("time", time), ("level", level), ("msg", msg), d, e], k)
         == if e.0 == k then Some(e.1) else if d.0 == k then Some(d.1)
            else if k == "msg" then Some(msg) else if k == "level" then Some(level)
            else if k == "time" then Some(time) else None
  {
    var head := [("time", time), ("level", level), ("msg", msg)];
    LookupThree(head[0], head[1], head[2], k);
    LookupSnoc(head, d, k);
    LookupSnoc(head + [d], e, k);
    assert head + [d] + [e] == [("time", time), ("level", level), ("msg", msg), d, e];
  }

  /** The label strip logs its error, or how many pods it stripped if any, and whose. */
  lemma StripLine(subject: string, strip: LabelAnswer, time: int, k: string)
    requires InRange(time)
    ensures LabelLines(subject, strip, time) == [] <==> strip == Unlabelled(0)
    ensures strip != Unlabelled(0) ==> |LabelLines(subject, strip, time)| == 1
    ensures strip.LabelError? ==>
              Lookup(LabelLines(subject, strip, time)[0], k)
              == if k == "time" then Some(Format(time)) else if k == "level" then Some("ERROR")
                 else if k == "msg" then Some("Failed to remove SPIRE-managed label")
                 else if k == "error" then Some(strip.text) else if k == "subject" then Some(subject) else None
    ensures strip.Unlabelled? && strip.pods > 0 ==>
              Lookup(LabelLines(subject, strip, time)[0], k)
              == if k == "time" then Some(Format(time)) else if k == "level" then Some("INFO")
                 else if k == "msg" then Some("SPIRE-managed label removed, identity will not be reissued")
                 else if k == "subject" then Some(subject) else if k == "pods" then Some(IntText(strip.pods)) else None
  {
    match strip
    case LabelError(text) =>
      FiveFields(Format(time), "ERROR", "Failed to remove SPIRE-managed label", ("error", text),
          ("subject", subject), k);
    case Unlabelled(pods) =>
      FiveFields(Format(time), "INFO", "SPIRE-managed label removed, identity will not be reissued",
          ("subject", subject), ("pods", Decimal(pods)), k);
  }

  /** When it logs an error and when a number: an error exactly when the subject has no workload, the listing
      failed, or a pod of the identity is still labelled; else the number of pods that changed. */
  lemma StripAnswerSays(pods: Pods, input: Input)
    requires input.body.Decoded?
    ensures var id := ParseWorkloadId(input.body.subject);
            var after := Stripped(pods, Reached(pods, input));
            if id.None? || input.listFails || Carriers(after, id.value.0, id.value.1) != {} then
              StripAnswer(pods, input) == LabelError(input.complaint)
            else
              StripAnswer(pods, input) == Unlabelled(|set k | k in pods && after[k] != pods[k]|)
  {
    var id := ParseWorkloadId(input.body.subject);
    if id.Some? && !input.listFails {
      var (ns, sa) := id.value;
      var carriers, after := Carriers(pods, ns, sa), Stripped(pods, Reached(pods, input));
      RepeatFindsRefused(pods, ns, sa, input.refused);
      ChangedPods(pods, ns, sa, carriers - input.refused);
      assert Carriers(after, ns, sa) == carriers * input.refused;
      DisjointIff(carriers, input.refused);
      assert Reached(pods, input) == set k | k in pods && after[k] != pods[k];
    }
  }

  lemma DisjointIff(a: set<PodKey>, b: set<PodKey>)
    ensures a !! b <==> a * b == {}
  {
    if a * b == {} {
      forall k | k in a ensures k !in b {
        assert k !in a * b;
      }
    }
  }

  lemma ChangedPods(pods: Pods, ns: string, sa: string, hit: set<PodKey>)
    requires hit <= Carriers(pods, ns, sa)
    ensures hit == set k | k in pods && Stripped(pods, hit)[k] != pods[k]
  {
    forall k | k in pods ensures k in hit <==> Stripped(pods, hit)[k] != pods[k] {
      StripUnlabels(pods[k], sa);
    }
  }

  // ---- one call ---------------------------------------------------------

  /** How the mesh patch of a call ends: failed without a principal, or when the principal is not marked and the
      patch is refused, lost or does not apply; deduped when it is marked. */
  predicate EndsAs(sh: Shared, input: Input, o: Outcome)
    requires input.body.Decoded?
  {
    var p := Principal(input.body.subject);
    if p.None? then o == Failed
    else if p.value in sh.revoked then o == Deduped
    else o == if input.answer == Ok && Append(sh.policy, JStr(p.value)).Some? then Revoked else Failed
  }

  lemma MeshEnds(sh: Shared, input: Input, log: seq<Pairs>) returns (after: Shared, o: Outcome)
    requires input.body.Decoded?
    ensures (after, o) == Mesh(sh.(log := log), input.body.subject, input.answer)
    ensures EndsAs(sh, input, o) && after.log == log && after.counts == sh.counts
  {
    var r := Mesh(sh.(log := log), input.body.subject, input.answer);
    after, o := r.0, r.1;
  }

  predicate CountsOne(before: Counters, after: Counters, o: Outcome) {
    && after.revoked == before.revoked + (if o.Revoked? then 1 else 0)
    && after.deduped == before.deduped + (if o.Deduped? then 1 else 0)
    && after.failed == before.failed + (if o.Failed? then 1 else 0)
  }

  /** A body that is no SET is logged and counted as a failure. */
  lemma GarbledLogs(sh: Shared, policyRef: string, input: Input, strip: LabelAnswer)
    requires input.Valid() && input.body.Garbled?
    ensures var after := Handle(sh, policyRef, input, strip);
            && after.log == sh.log + [OutcomeLine(policyRef, Garbled, Failed, input.reading)]
            && CountsOne(sh.counts, after.counts, Failed)
  {}

  /** One call logs its note, then the label strip, then its outcome, and counts that outcome. */
  lemma HandleLogs(sh: Shared, policyRef: string, input: Input, strip: LabelAnswer) returns (o: Outcome)
    requires input.Valid() && input.body.Decoded?
    ensures EndsAs(sh, input, o)
    ensures var after := Handle(sh, policyRef, input, strip);
            && after.log == sh.log + [Compromised(input.body, input.noted)]
                            + LabelLines(input.body.subject, strip, input.stripped)
                            + [OutcomeLine(policyRef, input.body, o, input.reading)]
            && CountsOne(sh.counts, after.counts, o)
  {
    var after;
    after, o := MeshEnds(sh, input, sh.log + [Compromised(input.body, input.noted)]);
  }
}
