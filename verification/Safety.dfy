/** What the dedupe set means while nobody re-applies the seed: no revocation is silently lost,
    no update of the policy is lost, and what a `deduped` answer does and does not promise. */
module Safety {
  import opened Common
  import opened Json
  import opened Policy
  import opened Identity
  import opened Protocol
  import opened Ledger
  import Rfc3339

  predicate Denied(s: State, p: string)
    requires HasList(s.policy)
  {
    JStr(p) in ListOf(s.policy)
  }

  /** `p` is denied, or a handler is still at work on it. */
  predicate Backed(s: State, p: string)
    requires HasList(s.policy)
  {
    Denied(s, p) || Count(s.handlers, Holding(p)) > 0
  }

  /** `p` is denied, being worked on, or had an event that ended as failed. */
  predicate Covered(s: State, p: string)
    requires HasList(s.policy)
  {
    Backed(s, p) || Count(s.handlers, Answered(Failed, p)) > 0
  }

  predicate HandlerSound(s: State, h: Handler)
    requires HasList(s.policy)
  {
    Target(h).Some? && !h.phase.Start? ==>
      Covered(s, Target(h).value) && (h.phase.Patched? ==> Denied(s, Target(h).value))
  }

  ghost predicate Sound(s: State) {
    && HasList(s.seed) && HasList(s.policy)
    && (forall p :: p in s.revoked ==> Backed(s, p))
    && (forall h :: h in s.handlers ==> HandlerSound(s, h))
  }

  predicate NoReapply(acts: seq<Action>) {
    forall i :: 0 <= i < |acts| ==> !acts[i].Reapply?
  }

  lemma DeniedStep(s: State, a: Action, p: string)
    requires Enabled(s, a) && !a.Reapply? && HasList(s.seed) && HasList(s.policy)
    ensures HasList(Apply(s, a).policy)
    ensures Denied(s, p) || (a.ServerApplies? && Target(s.handlers[a.i]) == Some(p)) ==> Denied(Apply(s, a), p)
  {
    PolicyStep(s, a);
  }

  /** Coverage of a principal is never lost, and a handler past LoadOrStore has it. */
  lemma CoveredStep(s: State, a: Action, p: string)
    requires Enabled(s, a) && !a.Reapply? && Sound(s)
    ensures HasList(Apply(s, a).policy)
    ensures Covered(s, p) ==> Covered(Apply(s, a), p)
    ensures Mover(a).Some? && Target(s.handlers[Mover(a).value]) == Some(p) ==> Covered(Apply(s, a), p)
    ensures p in Apply(s, a).revoked ==> Backed(Apply(s, a), p)
  {
    DeniedStep(s, a, p);
    HoldingStep(s, a, p);
    AnsweredStep(s, a, Failed, p);
    MarkStep(s, a, p);
    if Mover(a).Some? {
      assert HandlerSound(s, s.handlers[Mover(a).value]);
    }
    if a.Rollback? && Target(s.handlers[a.i]) == Some(p) {
      assert Count(Apply(s, a).handlers, Answered(Failed, p)) > 0;
    }
  }

  lemma SoundStep(s: State, a: Action)
    requires Enabled(s, a) && !a.Reapply? && Sound(s)
    ensures Sound(Apply(s, a))
  {
    var t := Apply(s, a);
    PolicyStep(s, a);
    forall p ensures p in t.revoked ==> Backed(t, p) {
      CoveredStep(s, a, p);
    }
    forall h | h in t.handlers ensures HandlerSound(t, h) {
      HandlerSoundStep(s, a, h);
    }
  }

  lemma HandlerSoundStep(s: State, a: Action, h: Handler)
    requires Enabled(s, a) && !a.Reapply? && Sound(s) && h in Apply(s, a).handlers
    ensures HasList(Apply(s, a).policy) && HandlerSound(Apply(s, a), h)
  {
    var t := Apply(s, a);
    PolicyStep(s, a);
    if Target(h).Some? {
      var p := Target(h).value;
      CoveredStep(s, a, p);
      DeniedStep(s, a, p);
      CountStep(s, a, Holding(p));
      if h in s.handlers {
        assert HandlerSound(s, h);
      }
    }
  }

  lemma {:induction false} SoundRun(s: State, acts: seq<Action>)
    requires Sound(s) && NoReapply(acts) && Run(s, acts).Some?
    ensures Sound(Run(s, acts).value)
  {
    if acts == [] {
    } else {
      SoundRun(s, acts[..|acts| - 1]);
      SoundStep(Run(s, acts[..|acts| - 1]).value, acts[|acts| - 1]);
    }
  }

  lemma InitSound(seed: Json, policyRef: string)
    requires HasList(seed)
    ensures Sound(Init(seed, policyRef))
  {}

  lemma {:induction false} CountWitness(hs: seq<Handler>, keep: Handler -> bool)
    requires Count(hs, keep) > 0
    ensures exists h :: h in hs && keep(h)
  {
    CountZero(hs, keep);
  }

  // ---- results ----------------------------------------------------------

  /** Nothing is silently lost, resets or not: once every handler is done, each SPIFFE subject received
      is denied or had an event counted as failed. */
  lemma NothingLost(seed: Json, policyRef: string, acts: seq<Action>, s: State, h: Handler)
    requires HasList(seed) && NoReapply(acts) && Run(Init(seed, policyRef), acts) == Some(s)
    requires Quiescent(s) && h in s.handlers && Target(h).Some?
    ensures HasList(s.policy)
    ensures Denied(s, Target(h).value)
         || exists g :: g in s.handlers && g.phase == Done(Failed) && Target(g) == Target(h)
  {
    var p := Target(h).value;
    InitSound(seed, policyRef);
    SoundRun(Init(seed, policyRef), acts);
    assert h.phase.Done? && HandlerSound(s, h);
    CountZero(s.handlers, Holding(p));
    if !Denied(s, p) {
      CountWitness(s.handlers, Answered(Failed, p));
    }
  }

  /** A `deduped` answer is given only while the principal is denied or another handler holds it. */
  lemma DedupeIsBacked(seed: Json, policyRef: string, acts: seq<Action>, s: State, i: nat)
    requires HasList(seed) && NoReapply(acts) && Run(Init(seed, policyRef), acts) == Some(s)
    requires Enabled(s, Acquire(i))
    ensures HasList(s.policy)
    ensures Apply(s, Acquire(i)).handlers[i].phase == Returned(Deduped) ==> Backed(s, Target(s.handlers[i]).value)
  {
    InitSound(seed, policyRef);
    SoundRun(Init(seed, policyRef), acts);
  }

  lemma {:induction false} NoReapplyLedger(s: State, acts: seq<Action>)
    requires NoReapply(acts) && Run(s, acts).Some?
    ensures Run(s, acts).value.ledger[Reapplied] == s.ledger[Reapplied]
  {
    if acts == [] {
    } else {
      NoReapplyLedger(s, acts[..|acts| - 1]);
      ListLedgerStep(Run(s, acts[..|acts| - 1]).value, acts[|acts| - 1], "");
    }
  }

  /** Once every handler is done, a principal is denied exactly when some event was answered `revoked`
      for it, or the seed, another writer or a patch that errored after being applied put it there. */
  lemma DeniedIff(seed: Json, policyRef: string, acts: seq<Action>, s: State, p: string)
    requires HasList(seed) && NoReapply(acts) && Run(Init(seed, policyRef), acts) == Some(s) && Quiescent(s)
    ensures HasList(s.policy)
    ensures Denied(s, p) <==> || (exists h :: h in s.handlers && h.phase == Done(Revoked) && Target(h) == Some(p))
                              || JStr(p) in ListOf(seed) || s.ledger[Ambiguous(p)] > 0 || s.ledger[Foreign(JStr(p))] > 0
  {
    var s0 := Init(seed, policyRef);
    InitInv(seed, policyRef);
    InvRun(s0, acts);
    SeedFixed(s0, acts);
    NoReapplyLedger(s0, acts);
    assert Listed(s, p) && Credited(s, p);
    CountZero(s.handlers, InFlight(p));
    CountZero(s.handlers, Answered(Revoked, p));
    if h :| h in s.handlers && h.phase == Done(Revoked) && Target(h) == Some(p) {
      assert Answered(Revoked, p)(h);
    }
  }

  /** No update of the policy is lost: whatever handlers, resets and other writers do, each list is a
      prefix of every later one and no other node of the document changes. */
  lemma {:induction false} NoLostUpdate(s: State, acts: seq<Action>)
    requires HasList(s.seed) && HasList(s.policy) && NoReapply(acts) && Run(s, acts).Some?
    ensures var t := Run(s, acts).value;
            t.seed == s.seed && HasList(t.policy) && ListOf(s.policy) <= ListOf(t.policy)
                && SameElsewhere(s.policy, t.policy)
  {
    if acts == [] {
    } else {
      NoLostUpdate(s, acts[..|acts| - 1]);
      PolicyStep(Run(s, acts[..|acts| - 1]).value, acts[|acts| - 1]);
    }
  }

  // ---- a 202 is not a deny ----------------------------------------------

  /** Two events for one subject: the second is deduped while the first's patch is on its way, and
      that patch then fails. */
  function LateFailure(body: Body, r: Reading): seq<Action> {
    LateBegin(body) + LateEnd() + FinishSteps(0, r) + FinishSteps(1, r)
  }

  lemma Extend(s0: State, acts: seq<Action>, s: State, a: Action, t: State)
    requires Run(s0, acts) == Some(s) && Enabled(s, a) && Apply(s, a) == t
    ensures Run(s0, acts + [a]) == Some(t)
  {
    assert (acts + [a])[..|acts|] == acts;
  }

  /** Two handlers of one SET arrive, the first takes the mark. */
  function LateBegin(body: Body): seq<Action> {
    [] + [Receive(body)] + [Receive(body)] + [Acquire(0)]
  }

  /** The second is deduped, then the first one's patch fails and is rolled back. */
  function LateEnd(): seq<Action> {
    [] + [Acquire(1)] + [PatchError(0)] + [Rollback(0)]
  }

  lemma LateFailureStart(s0: State, body: Body, p: string)
    requires s0.handlers == [] && s0.sweeps == [] && s0.revoked == {}
    requires body.Decoded? && Principal(body.subject) == Some(p)
    ensures Run(s0, LateBegin(body))
         == Some(s0.(handlers := [Handler(body, Held), Handler(body, Start)], revoked := {p}))
  {
    var h := Handler(body, Start);
    var s1, s2 := s0.(handlers := [h]), s0.(handlers := [h, h]);
    var s3 := s2.(handlers := [Handler(body, Held), h], revoked := {p});
    Extend(s0, [], s0, Receive(body), s1);
    Extend(s0, [] + [Receive(body)], s1, Receive(body), s2);
    assert NoteStore(s2.sweeps, p) == [] && s2.handlers[0 := Handler(body, Held)] == s3.handlers;
    Extend(s0, [] + [Receive(body)] + [Receive(body)], s2, Acquire(0), s3);
  }

  lemma LateFailureEnd(s3: State, body: Body, p: string)
    requires body.Decoded? && Principal(body.subject) == Some(p)
    requires s3.handlers == [Handler(body, Held), Handler(body, Start)] && s3.sweeps == [] && s3.revoked == {p}
    ensures Run(s3, LateEnd())
         == Some(s3.(handlers := [Handler(body, Returned(Failed)), Handler(body, Returned(Deduped))], revoked := {}))
  {
    var s4 := s3.(handlers := [Handler(body, Held), Handler(body, Returned(Deduped))]);
    var s5 := s3.(handlers := [Handler(body, PatchFailed), Handler(body, Returned(Deduped))]);
    var s6 := s3.(handlers := [Handler(body, Returned(Failed)), Handler(body, Returned(Deduped))], revoked := {});
    assert s3.handlers[1 := Handler(body, Returned(Deduped))] == s4.handlers;
    Extend(s3, [], s3, Acquire(1), s4);
    assert s4.handlers[0 := Handler(body, PatchFailed)] == s5.handlers;
    Extend(s3, [] + [Acquire(1)], s4, PatchError(0), s5);
    assert NoteDelete(s5.sweeps, p) == [] && s5.handlers[0 := Handler(body, Returned(Failed))] == s6.handlers;
    assert s5.revoked - {p} == {};
    Extend(s3, [] + [Acquire(1)] + [PatchError(0)], s5, Rollback(0), s6);
  }

  /** What the last three steps of a handler leave alone. */
  predicate SameMesh(s: State, t: State) {
    t.policy == s.policy && t.revoked == s.revoked && t.sweeps == s.sweeps && t.seed == s.seed
  }

  lemma TailStep(s0: State, acts: seq<Action>, s: State, i: nat, o: Outcome, a: Action) returns (t: State)
    requires Run(s0, acts) == Some(s) && i < |s.handlers|
    requires || (a == Bump(i) && s.handlers[i].phase == Returned(o))
             || (a.Observe? && a.i == i && s.handlers[i].phase == Counted(o))
             || (a.Report? && a.i == i && s.handlers[i].phase == Observed(o, a.reading.Own())
                 && Rfc3339.InRange(a.reading.time))
    ensures Run(s0, acts + [a]) == Some(t) && SameMesh(s, t)
    ensures t.handlers == s.handlers[i := s.handlers[i].(phase :=
              if a.Bump? then Counted(o) else if a.Observe? then Observed(o, a.own) else Done(o))]
  {
    t := Apply(s, a);
    Extend(s0, acts, s, a, t);
  }

  /** Counter, histograms, outcome line. */
  function FinishSteps(i: nat, r: Reading): seq<Action> {
    [] + [Bump(i)] + [Observe(i, r.Own())] + [Report(i, r)]
  }

  lemma Settles(h0: seq<Handler>, h1: seq<Handler>, h2: seq<Handler>, h3: seq<Handler>, i: nat, o: Outcome, own: Marks)
    requires i < |h0| && h1 == h0[i := h0[i].(phase := Counted(o))]
    requires h2 == h1[i := h1[i].(phase := Observed(o, own))] && h3 == h2[i := h2[i].(phase := Done(o))]
    ensures h3 == h0[i := h0[i].(phase := Done(o))]
  {}

  /** An answered handler finishes without touching the dedupe set or the policy. */
  lemma Finish(s: State, i: nat, o: Outcome, r: Reading)
    requires i < |s.handlers| && s.handlers[i].phase == Returned(o) && Rfc3339.InRange(r.time)
    ensures var t := Run(s, FinishSteps(i, r));
            && t.Some? && SameMesh(s, t.value)
            && t.value.handlers == s.handlers[i := s.handlers[i].(phase := Done(o))]
  {
    var s1 := TailStep(s, [], s, i, o, Bump(i));
    var s2 := TailStep(s, [] + [Bump(i)], s1, i, o, Observe(i, r.Own()));
    var s3 := TailStep(s, [] + [Bump(i)] + [Observe(i, r.Own())], s2, i, o, Report(i, r));
    Settles(s.handlers, s1.handlers, s2.handlers, s3.handlers, i, o, r.Own());
  }

  /** So a `deduped` answer, a 202, does not mean denied: here it was given, every handler is done, and
      the policy is the seed. `DeniedIff` says when it does. */
  lemma DedupedNotDenied(seed: Json, policyRef: string, body: Body, r: Reading)
    requires HasList(seed) && Rfc3339.InRange(r.time)
    requires body.Decoded? && Principal(body.subject).Some? && JStr(Principal(body.subject).value) !in ListOf(seed)
    ensures var s := Run(Init(seed, policyRef), LateFailure(body, r));
            && s.Some? && Quiescent(s.value) && s.value.policy == seed && s.value.revoked == {}
            && s.value.handlers[1] == Handler(body, Done(Deduped))
            && !Denied(s.value, Principal(body.subject).value)
  {
    var s0 := Init(seed, policyRef);
    var p := Principal(body.subject).value;
    var begin, end := LateBegin(body), LateEnd();
    var first, second := FinishSteps(0, r), FinishSteps(1, r);
    LateFailureStart(s0, body, p);
    var s3 := Run(s0, begin).value;
    LateFailureEnd(s3, body, p);
    RunAppend(s0, begin, end);
    var s6 := Run(s3, end).value;
    Finish(s6, 0, Failed, r);
    RunAppend(s0, begin + end, first);
    var s9 := Run(s6, first).value;
    Finish(s9, 1, Deduped, r);
    RunAppend(s0, begin + end + first, second);
  }
}
