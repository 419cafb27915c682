/** One uninterrupted `eventsHandler` call is one schedule of the transition system: the imperative
    code of Actuator.dfy and the interleaved protocol of Protocol.dfy are the same program. */
module Sequential {
  import opened Common
  import opened Json
  import opened Identity
  import opened Policy
  import opened Logfmt
  import opened Spans
  import opened Rfc3339
  import opened Protocol
  import opened Safety
  import opened Accounting
  import opened Actuator

  /** A schedule of handler `n` alone, with its log lines. */
  predicate Alone(acts: seq<Action>, n: nat) {
    forall i :: 0 <= i < |acts| ==> acts[i].Receive? || acts[i].Noise? || Mover(acts[i]) == Some(n)
  }

  /** `acts` is a schedule of handler `n` alone from `s0` to `s`. */
  ghost predicate Path(s0: State, acts: seq<Action>, s: State, n: nat) {
    Run(s0, acts) == Some(s) && Alone(acts, n) && s.policyRef == s0.policyRef
  }

  /** Handler `n` is at `phase`, and nobody else moved. */
  predicate At(s0: State, s: State, body: Body, phase: Phase) {
    s.handlers == s0.handlers + [Handler(body, phase)]
  }

  lemma Append1(s0: State, acts: seq<Action>, s: State, n: nat, a: Action, t: State)
    requires Path(s0, acts, s, n) && Enabled(s, a) && t == Apply(s, a)
    requires a.Receive? || a.Noise? || Mover(a) == Some(n)
    ensures Path(s0, acts + [a], t, n)
  {
    Extend(s0, acts, s, a, t);
  }

  lemma DoReceive(s: State, body: Body) returns (acts: seq<Action>, t: State)
    ensures Path(s, acts, t, |s.handlers|) && View(t) == View(s)
    ensures At(s, t, body, if body.Garbled? then Returned(Failed) else Start)
  {
    t := Apply(s, Receive(body));
    Append1(s, [], s, |s.handlers|, Receive(body), t);
    acts := [] + [Receive(body)];
  }

  lemma DoNoise(s0: State, acts0: seq<Action>, s: State, line: Pairs) returns (acts: seq<Action>, t: State)
    requires Path(s0, acts0, s, |s0.handlers|) && Enabled(s, Noise(line))
    ensures Path(s0, acts, t, |s0.handlers|) && View(t) == View(s).(log := s.log + [line]) && t.handlers == s.handlers
  {
    t := Apply(s, Noise(line));
    Append1(s0, acts0, s, |s0.handlers|, Noise(line), t);
    acts := acts0 + [Noise(line)];
  }

  lemma DoAcquire(s0: State, acts0: seq<Action>, s: State, body: Body, p: string) returns (acts: seq<Action>, t: State)
    requires Path(s0, acts0, s, |s0.handlers|) && At(s0, s, body, Start)
    requires body.Decoded? && Principal(body.subject) == Some(p)
    ensures Path(s0, acts, t, |s0.handlers|) && At(s0, t, body, if p in s.revoked then Returned(Deduped) else Held)
    ensures View(t) == View(s).(revoked := s.revoked + {p})
  {
    var a := Acquire(|s0.handlers|);
    assert s.handlers[a.i] == Handler(body, Start);
    t := Apply(s, a);
    assert p in s.revoked ==> s.revoked + {p} == s.revoked;
    Append1(s0, acts0, s, a.i, a, t);
    acts := acts0 + [a];
  }

  lemma DoServer(s0: State, acts0: seq<Action>, s: State, body: Body, p: string) returns (acts: seq<Action>, t: State)
    requires Path(s0, acts0, s, |s0.handlers|) && At(s0, s, body, Held)
    requires body.Decoded? && Principal(body.subject) == Some(p) && Append(s.policy, JStr(p)).Some?
    ensures Path(s0, acts, t, |s0.handlers|) && At(s0, t, body, Patched)
    ensures View(t) == View(s).(policy := Append(s.policy, JStr(p)).value)
  {
    var a := ServerApplies(|s0.handlers|);
    assert s.handlers[a.i] == Handler(body, Held);
    t := Apply(s, a);
    Append1(s0, acts0, s, a.i, a, t);
    acts := acts0 + [a];
  }

  lemma DoAnswer(s0: State, acts0: seq<Action>, s: State, body: Body, from: Phase, a: Action, to: Phase)
    returns (acts: seq<Action>, t: State)
    requires Path(s0, acts0, s, |s0.handlers|) && At(s0, s, body, from)
    requires || (a == PatchOk(|s0.handlers|) && from == Patched && to == Returned(Revoked)
        && Target(Handler(body, from)).Some?)
             || (a == PatchError(|s0.handlers|) && (from == Held || from == Patched) && to == PatchFailed
                 && Target(Handler(body, from)).Some?)
             || (a == Reject(|s0.handlers|) && from == Start && to == Returned(Failed)
                 && Target(Handler(body, from)).None?)
    ensures Path(s0, acts, t, |s0.handlers|) && At(s0, t, body, to) && View(t) == View(s)
  {
    assert s.handlers[a.i] == Handler(body, from);
    t := Apply(s, a);
    Append1(s0, acts0, s, a.i, a, t);
    acts := acts0 + [a];
  }

  lemma DoRollback(s0: State, acts0: seq<Action>, s: State, body: Body, p: string) returns (acts: seq<Action>, t: State)
    requires Path(s0, acts0, s, |s0.handlers|) && At(s0, s, body, PatchFailed)
    requires body.Decoded? && Principal(body.subject) == Some(p)
    ensures Path(s0, acts, t, |s0.handlers|) && At(s0, t, body, Returned(Failed))
    ensures View(t) == View(s).(revoked := s.revoked - {p})
  {
    var a := Rollback(|s0.handlers|);
    assert s.handlers[a.i] == Handler(body, PatchFailed);
    t := Apply(s, a);
    Append1(s0, acts0, s, a.i, a, t);
    acts := acts0 + [a];
  }

  lemma DoCount(s0: State, acts0: seq<Action>, s: State, body: Body, o: Outcome) returns (acts: seq<Action>, t: State)
    requires Path(s0, acts0, s, |s0.handlers|) && At(s0, s, body, Returned(o))
    ensures Path(s0, acts, t, |s0.handlers|) && At(s0, t, body, Counted(o))
    ensures View(t) == View(s).(counts := s.counts.Bump(o))
  {
    var a := Bump(|s0.handlers|);
    assert s.handlers[a.i] == Handler(body, Returned(o));
    t := Apply(s, a);
    Append1(s0, acts0, s, a.i, a, t);
    acts := acts0 + [a];
  }

  lemma DoObserve(s0: State, acts0: seq<Action>, s: State, body: Body, o: Outcome, own: Marks)
    returns (acts: seq<Action>, t: State)
    requires Path(s0, acts0, s, |s0.handlers|) && At(s0, s, body, Counted(o))
    ensures Path(s0, acts, t, |s0.handlers|) && At(s0, t, body, Observed(o, own))
    ensures View(t) == View(s).(stages := s.stages + Samples(Actuated(body, o, own), false),
                                pipeline := s.pipeline + Samples(Actuated(body, o, own), true))
  {
    var a := Observe(|s0.handlers|, own);
    assert s.handlers[a.i] == Handler(body, Counted(o));
    t := Apply(s, a);
    Append1(s0, acts0, s, a.i, a, t);
    acts := acts0 + [a];
  }

  lemma DoReport(s0: State, acts0: seq<Action>, s: State, body: Body, o: Outcome, r: Reading)
    returns (acts: seq<Action>, t: State)
    requires Path(s0, acts0, s, |s0.handlers|) && At(s0, s, body, Observed(o, r.Own())) && InRange(r.time)
    ensures Path(s0, acts, t, |s0.handlers|) && At(s0, t, body, Done(o))
    ensures View(t) == View(s).(log := s.log + [OutcomeLine(s0.policyRef, body, o, r)])
  {
    var a := Report(|s0.handlers|, r);
    assert s.handlers[a.i] == Handler(body, Observed(o, r.Own()));
    t := Apply(s, a);
    Append1(s0, acts0, s, a.i, a, t);
    acts := acts0 + [a];
  }

  // ---- the phases of a call ---------------------------------------------

  lemma MeshPath(s0: State, acts0: seq<Action>, s: State, body: Body, answer: Answer)
    returns (acts: seq<Action>, t: State)
    requires Path(s0, acts0, s, |s0.handlers|) && At(s0, s, body, Start) && body.Decoded?
    ensures var (after, o) := Mesh(View(s), body.subject, answer);
            Path(s0, acts, t, |s0.handlers|) && At(s0, t, body, Returned(o)) && View(t) == after
  {
    var n := |s0.handlers|;
    match Principal(body.subject)
    case None =>
      acts, t := DoAnswer(s0, acts0, s, body, Start, Reject(n), Returned(Failed));
    case Some(p) =>
      acts, t := DoAcquire(s0, acts0, s, body, p);
      if p in s.revoked {
        assert s.revoked + {p} == s.revoked;
      } else {
        assert s.revoked + {p} - {p} == s.revoked;
        var patchable := Append(s.policy, JStr(p)).Some?;
        var phase := Held;
        if !answer.Refused? && patchable {
          acts, t := DoServer(s0, acts, t, body, p);
          phase := Patched;
        }
        if answer.Ok? && patchable {
          acts, t := DoAnswer(s0, acts, t, body, Patched, PatchOk(n), Returned(Revoked));
        } else {
          acts, t := DoAnswer(s0, acts, t, body, phase, PatchError(n), PatchFailed);
          acts, t := DoRollback(s0, acts, t, body, p);
        }
      }
  }

  lemma AccountPath(s0: State, acts0: seq<Action>, s: State, body: Body, o: Outcome, r: Reading)
    returns (acts: seq<Action>, t: State)
    requires Path(s0, acts0, s, |s0.handlers|) && At(s0, s, body, Returned(o)) && InRange(r.time)
    ensures Path(s0, acts, t, |s0.handlers|) && At(s0, t, body, Done(o))
    ensures View(t) == Account(View(s), s0.policyRef, body, o, r)
  {
    acts, t := DoCount(s0, acts0, s, body, o);
    acts, t := DoObserve(s0, acts, t, body, o, r.Own());
    acts, t := DoReport(s0, acts, t, body, o, r);
  }

  const NOTE_KEYS := ["time", "level", "msg", "SPIFFE Subject", "jti", "t0_ns", "error", "subject", "pods"]

  /** A line whose keys are among those of the handler's notes is no outcome line. */
  lemma NoteIsNoise(s: State, line: Pairs)
    requires |line| >= 3 && line[2].0 == "msg" && line[2].1 != NOT_ACTUATED && line[2].1 != NOT_DECODED
    requires forall i :: 0 <= i < |line| ==> line[i].0 in NOTE_KEYS && (i >= 3 ==> line[i].0 != "msg")
    ensures Enabled(s, Noise(line))
  {
    NoteKeys(line);
    LookupHasKey(line, "result");
    NoteMessage(line);
  }

  lemma NoteKeys(line: Pairs)
    requires forall i :: 0 <= i < |line| ==> line[i].0 in NOTE_KEYS
    ensures AsciiKeys(line) && !HasKey(line, "result")
  {
    forall k | k in NOTE_KEYS ensures k != "result" && forall j :: 0 <= j < |k| ==> ' ' <= k[j] <= '~' {
    }
  }

  lemma NoteMessage(line: Pairs)
    requires |line| >= 3 && line[2].0 == "msg" && forall i :: 3 <= i < |line| ==> line[i].0 != "msg"
    ensures Lookup(line, "msg") == Some(line[2].1)
  {
    assert line == line[..2] + [line[2]] + line[3..];
    LookupAppend(line[..2] + [line[2]], line[3..], "msg");
    LookupHasKey(line[3..], "msg");
    LookupSnoc(line[..2], line[2], "msg");
  }

  lemma LabelPath(s0: State, acts0: seq<Action>, s: State, subject: string, strip: LabelAnswer, time: int)
    returns (acts: seq<Action>, t: State)
    requires Path(s0, acts0, s, |s0.handlers|) && InRange(time)
    ensures Path(s0, acts, t, |s0.handlers|) && t.handlers == s.handlers
    ensures View(t) == View(s).(log := s.log + LabelLines(subject, strip, time))
  {
    acts, t := acts0, s;
    var lines := LabelLines(subject, strip, time);
    if lines == [] {
      assert s.log + lines == s.log;
    } else {
      assert lines == [lines[0]];
      NoteIsNoise(s, lines[0]);
      acts, t := DoNoise(s0, acts0, s, lines[0]);
    }
  }

  /** From any state of any run, however its label strip ends, an uninterrupted `eventsHandler` call leaves
      exactly what `Handle`, the contract of the imperative method, says; and its handler ends with the
      outcome `Handle` counted. */
  lemma SequentialIsRun(s: State, input: Input, strip: LabelAnswer) returns (acts: seq<Action>, t: State)
    requires input.Valid()
    ensures Path(s, acts, t, |s.handlers|) && View(t) == Handle(View(s), s.policyRef, input, strip)
    ensures |t.handlers| == |s.handlers| + 1 && t.handlers[|s.handlers|].phase.Done?
  {
    acts, t := DoReceive(s, input.body);
    if input.body.Garbled? {
      acts, t := AccountPath(s, acts, t, input.body, Failed, input.reading);
    } else {
      var note := Compromised(input.body, input.noted);
      NoteIsNoise(t, note);
      acts, t := DoNoise(s, acts, t, note);
      var (after, o) := Mesh(View(t), input.body.subject, input.answer);
      acts, t := MeshPath(s, acts, t, input.body, input.answer);
      acts, t := LabelPath(s, acts, t, input.body.subject, strip, input.stripped);
      acts, t := AccountPath(s, acts, t, input.body, o, input.reading);
    }
  }
}
