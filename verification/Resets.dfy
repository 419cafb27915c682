/** The reset handler's Range loop against concurrent handlers, and the trial reset built on it. */
module Resets {
  import opened Common
  import opened Json
  import opened Policy
  import opened Identity
  import opened Protocol
  import opened Ledger
  import opened Safety

  function PendingSet(w: Sweep): set<string> {
    if w.pending.Some? then {w.pending.value} else {}
  }

  /** One sweep against the shared set: its `must` keys are still there, every key there is one of them
      or was stored since it began, visited keys are gone unless their deletion is due, and an ended
      sweep has none left. */
  predicate SweepSound(revoked: set<string>, w: Sweep) {
    && w.must <= revoked <= w.must + w.stored
    && w.must * w.visited <= PendingSet(w)
    && PendingSet(w) <= w.visited
    && w.cleared + |PendingSet(w)| == |w.visited|
    && (w.ended ==> w.must == {} && w.pending.None?)
  }

  ghost predicate SweepsSound(s: State) {
    forall j :: 0 <= j < |s.sweeps| ==> SweepSound(s.revoked, s.sweeps[j])
  }

  lemma SweepStep(s: State, a: Action, j: nat)
    requires Enabled(s, a) && j < |s.sweeps| && SweepSound(s.revoked, s.sweeps[j])
    ensures j < |Apply(s, a).sweeps| && SweepSound(Apply(s, a).revoked, Apply(s, a).sweeps[j])
    ensures s.sweeps[j].ended ==> Apply(s, a).sweeps[j].ended
    ensures !a.Acquire? ==> Apply(s, a).sweeps[j].stored == s.sweeps[j].stored
  {
    match a
    case SweepVisit(i, k) => VisitStep(s, i, k, j);
    case SweepDelete(i) => DeleteStep(s, i, j);
    case _ =>
  }

  lemma VisitStep(s: State, i: nat, k: string, j: nat)
    requires Enabled(s, SweepVisit(i, k)) && j < |s.sweeps| && SweepSound(s.revoked, s.sweeps[j])
    ensures SweepSound(Apply(s, SweepVisit(i, k)).revoked, Apply(s, SweepVisit(i, k)).sweeps[j])
  {}

  lemma DeleteStep(s: State, i: nat, j: nat)
    requires Enabled(s, SweepDelete(i)) && j < |s.sweeps| && SweepSound(s.revoked, s.sweeps[j])
    ensures SweepSound(Apply(s, SweepDelete(i)).revoked, Apply(s, SweepDelete(i)).sweeps[j])
  {}

  lemma BeginStep(s: State)
    requires Enabled(s, SweepBegin)
    ensures var t := Apply(s, SweepBegin);
            t.revoked == s.revoked && |t.sweeps| == |s.sweeps| + 1 && SweepSound(t.revoked, t.sweeps[|s.sweeps|])
            && t.sweeps[|s.sweeps|].stored == {} && !t.sweeps[|s.sweeps|].ended
  {}

  lemma SweepCount(s: State, a: Action)
    requires Enabled(s, a)
    ensures |Apply(s, a).sweeps| == |s.sweeps| + One(a.SweepBegin?)
  {}

  lemma SweepsStep(s: State, a: Action)
    requires Enabled(s, a) && SweepsSound(s)
    ensures SweepsSound(Apply(s, a))
  {
    SweepCount(s, a);
    forall j | 0 <= j < |Apply(s, a).sweeps| ensures SweepSound(Apply(s, a).revoked, Apply(s, a).sweeps[j]) {
      if j < |s.sweeps| {
        SweepStep(s, a, j);
      } else {
        BeginStep(s);
      }
    }
  }

  lemma {:induction false} SweepsRun(s: State, acts: seq<Action>)
    requires SweepsSound(s) && Run(s, acts).Some?
    ensures SweepsSound(Run(s, acts).value)
  {
    if acts == [] {
    } else {
      SweepsRun(s, acts[..|acts| - 1]);
      SweepsStep(Run(s, acts[..|acts| - 1]).value, acts[|acts| - 1]);
    }
  }

  /** Without LoadOrStore steps, sweeps begun in the run record no stores. */
  lemma {:induction false} NoStores(s: State, acts: seq<Action>, j: nat)
    requires SweepsSound(s) && Run(s, acts).Some?
    requires forall i :: 0 <= i < |acts| ==> !acts[i].Acquire?
    requires |s.sweeps| <= j < |Run(s, acts).value.sweeps|
    ensures Run(s, acts).value.sweeps[j].stored == {}
  {
    if acts == [] {
    } else {
      var init, a := acts[..|acts| - 1], acts[|acts| - 1];
      var m := Run(s, init).value;
      SweepsRun(s, init);
      SweepCount(m, a);
      if j < |m.sweeps| {
        NoStores(s, init, j);
        SweepStep(m, a, j);
      } else {
        BeginStep(m);
      }
    }
  }

  // ---- results ----------------------------------------------------------

  /** A reset under traffic: once its sweep has ended, whatever is in the set was stored after the sweep
      began, and the reported count is the number of keys it visited. */
  lemma ResetUnderTraffic(seed: Json, policyRef: string, s: State, j: nat)
    requires Reachable(s, seed, policyRef) && j < |s.sweeps| && s.sweeps[j].ended
    ensures s.revoked <= s.sweeps[j].stored
    ensures s.sweeps[j].cleared == |s.sweeps[j].visited|
  {
    var acts :| Run(Init(seed, policyRef), acts) == Some(s);
    SweepsRun(Init(seed, policyRef), acts);
    assert SweepSound(s.revoked, s.sweeps[j]);
  }

  /** What a trial reset is after: nobody is at work, nothing is marked, and the policy is the seed. */
  predicate Emptied(s: State) {
    Quiescent(s) && s.revoked == {} && s.policy == s.seed
  }

  /** No reset call is still sweeping. */
  predicate AtRest(s: State) {
    forall j :: 0 <= j < |s.sweeps| ==> s.sweeps[j].ended
  }

  /** An emptied state in which every reset call has ended (`Restart.RunIsFresh`). */
  predicate Clean(s: State) {
    Emptied(s) && AtRest(s)
  }

  /** Steps of the operator's reset, and what else may run while no SET arrives. */
  predicate Idle(a: Action) {
    a.Noise? || a.SweepBegin? || a.SweepVisit? || a.SweepDelete? || a.SweepEnd? || a.Reapply?
  }

  lemma IdleStep(s: State, a: Action)
    requires Enabled(s, a) && Idle(a)
    ensures Apply(s, a).handlers == s.handlers && Apply(s, a).seed == s.seed && Apply(s, a).counts == s.counts
    ensures Apply(s, a).policy == if a.Reapply? then s.seed else s.policy
  {}

  lemma {:induction false} IdleRun(s: State, acts: seq<Action>)
    requires Run(s, acts).Some? && forall i :: 0 <= i < |acts| ==> Idle(acts[i])
    ensures var t := Run(s, acts).value;
            && t.handlers == s.handlers && t.seed == s.seed && t.counts == s.counts
            && ((exists i :: 0 <= i < |acts| && acts[i].Reapply?) ==> t.policy == t.seed)
  {
    if acts == [] {
    } else {
      var init, a := acts[..|acts| - 1], acts[|acts| - 1];
      IdleRun(s, init);
      IdleStep(Run(s, init).value, a);
      if i :| 0 <= i < |acts| && acts[i].Reapply? {
        assert i < |init| ==> init[i].Reapply?;
      }
    }
  }

  /** The trial reset: from a quiescent point of any run, re-applying the manifest and running a reset to
      its end, in either order and with any other resets beside it, empties the mark set and restores the
      policy. */
  lemma TrialResetCleans(seed: Json, policyRef: string, s: State, acts: seq<Action>, t: State, j: nat)
    requires Reachable(s, seed, policyRef) && Quiescent(s) && Run(s, acts) == Some(t)
    requires forall i :: 0 <= i < |acts| ==> Idle(acts[i])
    requires exists i :: 0 <= i < |acts| && acts[i].Reapply?
    requires |s.sweeps| <= j < |t.sweeps| && t.sweeps[j].ended
    ensures Emptied(t) && t.counts == s.counts
  {
    var before :| Run(Init(seed, policyRef), before) == Some(s);
    SweepsRun(Init(seed, policyRef), before);
    SweepsRun(s, acts);
    NoStores(s, acts, j);
    IdleRun(s, acts);
    assert SweepSound(t.revoked, t.sweeps[j]);
  }

  /** Re-applying alone is not enough: from a quiescent state it leaves the promise "a marked principal
      is denied" intact exactly when every mark is for a principal of the seed; otherwise the next event
      for such a principal is deduped while nothing denies it. */
  lemma ReapplyAloneLosesIff(s: State)
    requires HasList(s.seed) && HasList(s.policy) && Quiescent(s)
    ensures var t := Apply(s, Reapply);
            (forall p :: p in t.revoked ==> Backed(t, p)) <==> forall p :: p in s.revoked ==> JStr(p) in ListOf(s.seed)
  {
    var t := Apply(s, Reapply);
    forall p ensures p in t.revoked ==> (Backed(t, p) <==> JStr(p) in ListOf(s.seed)) {
      CountZero(s.handlers, Holding(p));
    }
    if forall p :: p in t.revoked ==> Backed(t, p) {
      forall p | p in s.revoked ensures JStr(p) in ListOf(s.seed) {
        assert p in t.revoked;
      }
    }
  }

  lemma StaleMarkDedupes(s: State, body: Body, p: string)
    requires HasList(s.seed) && HasList(s.policy) && Quiescent(s)
    requires body.Decoded? && Principal(body.subject) == Some(p) && p in s.revoked && JStr(p) !in ListOf(s.seed)
    ensures var t := Run(Apply(s, Reapply), [Receive(body)] + [Acquire(|s.handlers|)]);
            && t.Some? && HasList(t.value.policy) && t.value.handlers[|s.handlers|] == Handler(body, Returned(Deduped))
            && !Backed(t.value, p)
  {
    var n := |s.handlers|;
    var s1 := Apply(s, Reapply);
    var s2 := Apply(s1, Receive(body));
    Extend(s1, [], s1, Receive(body), s2);
    assert [] + [Receive(body)] == [Receive(body)];
    var s3 := Apply(s2, Acquire(n));
    Extend(s1, [Receive(body)], s2, Acquire(n), s3);
    CountZero(s.handlers, Holding(p));
    HoldingStep(s1, Receive(body), p);
    HoldingStep(s2, Acquire(n), p);
  }
}
