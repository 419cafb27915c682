/** The actuator's code, one call at a time: `revokeInMesh`, `eventsHandler` and `resetDedupeHandler`
    as methods over the process's state and the policy, each proved against the value it leaves.
    `SequentialIsRun` ties an uninterrupted `eventsHandler` call to the transition system. */
module Actuator {
  import opened Common
  import opened Text
  import opened Json
  import opened Identity
  import opened Policy
  import opened Logfmt
  import opened Rfc3339
  import opened Spans
  import opened Labels
  import opened Protocol
  import opened Safety

  /** How the API server answers a patch: applied and said so, errored, or applied with the answer lost. */
  datatype Answer = Ok | Refused | Lost

  /** How the label strip ended. */
  datatype LabelAnswer = LabelError(text: string) | Unlabelled(pods: nat)

  /** One POST: its body; how the API server answers the policy patch, the pod listing and the patches of
      these pods, and the text of what it complained of; and the clock at each log line. */
  datatype Input = Input(
    body: Body, answer: Answer, listFails: bool, refused: set<PodKey>, complaint: string,
    noted: int, stripped: int, reading: Reading)
  {
    predicate Valid() {
      InRange(noted) && InRange(stripped) && InRange(reading.time)
    }
  }

  /** What the handlers of one process share. */
  datatype Shared = Shared(
    revoked: set<string>, policy: Json, counts: Counters,
    stages: seq<(string, int)>, pipeline: seq<(string, int)>, log: seq<Pairs>)

  function View(s: State): Shared {
    Shared(s.revoked, s.policy, s.counts, s.stages, s.pipeline, s.log)
  }

  // ---- what one call amounts to -----------------------------------------

  /** `revokeInMesh`: the state it leaves and how its event is answered. */
  function Mesh(sh: Shared, subject: string, answer: Answer): (Shared, Outcome) {
    match Principal(subject)
    case None => (sh, Failed)
    case Some(p) =>
      if p in sh.revoked then (sh, Deduped)
      else
        var patched := Append(sh.policy, JStr(p));
        if answer.Refused? || patched.None? then (sh, Failed)
        else if answer.Lost? then (sh.(policy := patched.value), Failed)
        else (sh.(policy := patched.value, revoked := sh.revoked + {p}), Revoked)
  }

  /** A call marks the principal exactly when it revoked it, and leaves every other mark; it appends the principal
      exactly when the patch was sent, was not refused and found the list, whatever came back. */
  lemma MeshLeaves(sh: Shared, subject: string, answer: Answer)
    ensures var (after, o) := Mesh(sh, subject, answer);
            var p := Principal(subject);
            && after.revoked == (if o == Revoked then sh.revoked + {p.value} else sh.revoked)
            && (o == Revoked ==> p.Some? && p.value !in sh.revoked && answer == Ok)
            && after.policy
               == (if p.Some? && p.value !in sh.revoked && answer != Refused && Append(sh.policy, JStr(p.value)).Some?
                   then Append(sh.policy, JStr(p.value)).value else sh.policy)
            && after.counts == sh.counts && after.log == sh.log
            && after.stages == sh.stages && after.pipeline == sh.pipeline
  {}

  function Compromised(body: Body, time: int): Pairs
    requires body.Decoded? && InRange(time)
  {
    [("time", Format(time)), ("level", "INFO"), ("msg", "Subject compromised:"),
     ("SPIFFE Subject", body.subject), ("jti", body.jti),
     ("t0_ns", IntText(if body.t0.Some? then body.t0.value else 0))]
  }

  function LabelLines(subject: string, strip: LabelAnswer, time: int): seq<Pairs>
    requires InRange(time)
  {
    match strip
    case LabelError(text) =>
      [[("time", Format(time)), ("level", "ERROR"), ("msg", "Failed to remove SPIRE-managed label"),
        ("error", text), ("subject", subject)]]
    case Unlabelled(pods) =>
      if pods == 0 then []
      else [[("time", Format(time)), ("level", "INFO"),
             ("msg", "SPIRE-managed label removed, identity will not be reissued"),
             ("subject", subject), ("pods", Decimal(pods))]]
  }

  /** The pods a call should strip and reach; none for an unparseable subject or a failed listing. */
  function Reached(pods: Pods, input: Input): set<PodKey> {
    if input.body.Garbled? || ParseWorkloadId(input.body.subject).None? || input.listFails then {}
    else
      var (ns, sa) := ParseWorkloadId(input.body.subject).value;
      Carriers(pods, ns, sa) - input.refused
  }

  /** How the label strip of a call ends. */
  function StripAnswer(pods: Pods, input: Input): LabelAnswer {
    if input.body.Garbled? || ParseWorkloadId(input.body.subject).None?
        || input.listFails then LabelError(input.complaint)
    else
      var (ns, sa) := ParseWorkloadId(input.body.subject).value;
      if Carriers(pods, ns, sa) !! input.refused then Unlabelled(|Reached(pods, input)|)
          else LabelError(input.complaint)
  }

  /** Counter, histogram samples and outcome line. */
  function Account(sh: Shared, policyRef: string, body: Body, o: Outcome, r: Reading): Shared
    requires InRange(r.time)
  {
    sh.(counts := sh.counts.Bump(o),
        stages := sh.stages + Samples(Actuated(body, o, r.Own()), false),
        pipeline := sh.pipeline + Samples(Actuated(body, o, r.Own()), true),
        log := sh.log + [OutcomeLine(policyRef, body, o, r)])
  }

  /** A whole `eventsHandler` call with nobody beside it, when its label strip ends as `strip`. */
  function Handle(sh: Shared, policyRef: string, input: Input, strip: LabelAnswer): Shared
    requires input.Valid()
  {
    match input.body
    case Garbled => Account(sh, policyRef, input.body, Failed, input.reading)
    case Decoded(subject, _, _, _, _) =>
      var (after, o) := Mesh(sh.(log := sh.log + [Compromised(input.body, input.noted)]), subject, input.answer);
      Account(after.(log := after.log + LabelLines(subject, strip, input.stripped)), policyRef, input.body, o,
          input.reading)
  }

  // ---- the code ---------------------------------------------------------

  class Process {
    const policyRef: string
    var revoked: set<string>
    var policy: Json
    var counts: Counters
    var log: seq<Pairs>
    const hist: Histograms
    const cluster: Cluster

    function Value(): Shared
      reads this, hist
    {
      Shared(revoked, policy, counts, hist.stages, hist.pipeline, log)
    }

    constructor (policyRef: string, policy: Json, cluster: Cluster)
      ensures Value() == Shared({}, policy, Counters(0, 0, 0), [], [], []) && fresh(hist)
      ensures this.policyRef == policyRef && this.cluster == cluster
    {
      this.cluster := cluster;
      hist := new Histograms();
      this.policyRef := policyRef;
      this.policy := policy;
      revoked, counts, log := {}, Counters(0, 0, 0), [];
    }

    /** sync.Map.LoadOrStore. */
    method LoadOrStore(p: string) returns (dup: bool)
      modifies `revoked
      ensures dup == (p in old(revoked)) && revoked == old(revoked) + {p}
    {
      dup := p in revoked;
      revoked := revoked + {p};
    }

    /** The JSON patch call; `failed` is its error. */
    method PatchPolicy(p: string, answer: Answer) returns (failed: bool)
      modifies `policy
      ensures var patched := Append(old(policy), JStr(p));
              && policy == (if answer.Refused? || patched.None? then old(policy) else patched.value)
              && failed == (!answer.Ok? || patched.None?)
    {
      var patched := Append(policy, JStr(p));
      failed := true;
      if !answer.Refused? && patched.Some? {
        policy := patched.value;
        failed := answer.Lost?;
      }
    }

    /** `revokeInMesh`. */
    method RevokeInMesh(subject: string, answer: Answer) returns (patched: bool, failed: bool)
      modifies `revoked, `policy
      ensures (Value(), if failed then Failed else if patched then Revoked else Deduped)
           == Mesh(old(Value()), subject, answer)
      ensures !(patched && failed)
    {
      patched, failed := false, true;
      var principal := Principal(subject);
      if principal.None? {
        return;
      }
      ghost var before := revoked;
      var dup := LoadOrStore(principal.value);
      if dup {
        assert revoked == before;
        failed := false;
        return;
      }
      failed := PatchPolicy(principal.value, answer);
      if failed {
        revoked := revoked - {principal.value};
        assert revoked == before;
        return;
      }
      patched := true;
    }

    /** Counter, histograms and outcome line, in that order. */
    method Finish(body: Body, o: Outcome, r: Reading)
      requires InRange(r.time)
      modifies `counts, `log, hist
      ensures Value() == Account(old(Value()), policyRef, body, o, r)
    {
      counts := counts.Bump(o);
      if o.Revoked? && body.Decoded? {
        hist.ObserveSpans(ClocksOf(body, r.Own()));
      }
      log := log + [OutcomeLine(policyRef, body, o, r)];
    }

    /** The label half of an event. */
    method StripLabel(input: Input) returns (strip: LabelAnswer)
      requires input.body.Decoded?
      modifies cluster
      ensures strip == StripAnswer(old(cluster.pods), input)
      ensures cluster.pods == Stripped(old(cluster.pods), Reached(old(cluster.pods), input))
    {
      var unlabeled, errs, failed := cluster.RemoveSpireLabel(input.body.subject, input.listFails, input.refused);
      StrippedNone(old(cluster.pods));
      ghost var parsed := ParseWorkloadId(input.body.subject);
      if parsed.Some? && !input.listFails {
        ghost var carriers := Carriers(old(cluster.pods), parsed.value.0, parsed.value.1);
        assert |multiset(errs)| == |errs| && |multiset(carriers * input.refused)| == |carriers * input.refused|;
      }
      strip := if failed then LabelError(input.complaint) else Unlabelled(unlabeled);
    }

    /** `eventsHandler` on a POST whose body could be read. */
    method HandleEvent(input: Input)
      requires input.Valid()
      modifies this, hist, cluster
      ensures Value() == Handle(old(Value()), policyRef, input, StripAnswer(old(cluster.pods), input))
      ensures cluster.pods == Stripped(old(cluster.pods), Reached(old(cluster.pods), input))
    {
      var body := input.body;
      if body.Garbled? {
        StrippedNone(cluster.pods);
        Finish(body, Failed, input.reading);
        return;
      }
      log := log + [Compromised(body, input.noted)];
      var patched, failed := RevokeInMesh(body.subject, input.answer);
      var strip := StripLabel(input);
      log := log + LabelLines(body.subject, strip, input.stripped);
      Finish(body, if failed then Failed else if patched then Revoked else Deduped, input.reading);
    }

    /** `resetDedupeHandler` on a POST: a Range loop that deletes each key. */
    method ResetDedupe() returns (cleared: nat)
      modifies `revoked
      ensures revoked == {} && cleared == |old(revoked)|
    {
      cleared := 0;
      while revoked != {}
        invariant revoked <= old(revoked) && cleared == |old(revoked)| - |revoked|
        decreases revoked
      {
        var key :| key in revoked;
        revoked := revoked - {key};
        cleared := cleared + 1;
      }
    }
  }
}
