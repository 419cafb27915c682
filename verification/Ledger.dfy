/** Conservation laws of the revocation protocol, over every interleaving. */
module Ledger {
  import opened Common
  import opened Json
  import opened Policy
  import opened Protocol

  function One(b: bool): nat {
    if b then 1 else 0
  }

  /** Inside `revokeInMesh` with a mark stored for `p`. */
  function Holding(p: string): Handler -> bool {
    (h: Handler) => (h.phase.Held? || h.phase.Patched? || h.phase.PatchFailed?) && Target(h) == Some(p)
  }

  function InFlight(p: string): Handler -> bool {
    (h: Handler) => h.phase.Patched? && Target(h) == Some(p)
  }

  /** `revokeInMesh` returned `o` for `p`. */
  function Answered(o: Outcome, p: string): Handler -> bool {
    (h: Handler) => Settled(h.phase, o) && Target(h) == Some(p)
  }

  predicate Settled(phase: Phase, o: Outcome) {
    phase == Returned(o) || phase == Counted(o) || (phase.Observed? && phase.o == o) || phase == Done(o)
  }

  function Occurs(s: State, p: string): nat
    requires HasList(s.policy)
  {
    multiset(ListOf(s.policy))[JStr(p)]
  }

  /** Marks acquired for `p` are conserved: each ended in a success, is still held, or was rolled back;
      each put `p` in the set, where it still is or from where a reset or a rollback took it. */
  predicate Balanced(s: State, p: string) {
    s.ledger[Succeeded(p)] + Count(s.handlers, Holding(p)) + s.ledger[Missed(p)]
      == One(p in s.revoked) + s.ledger[Swept(p)]
  }

  /** A mark in the set is backed by a success or by a handler still at work. */
  predicate Marked(s: State, p: string) {
    p in s.revoked ==> s.ledger[Succeeded(p)] + Count(s.handlers, Holding(p)) >= 1
  }

  /** Every occurrence of `p` in the policy is accounted for; exactly, as long as nobody re-applied the seed. */
  predicate Listed(s: State, p: string)
    requires HasList(s.seed) && HasList(s.policy)
  {
    var total := multiset(ListOf(s.seed))[JStr(p)] + s.ledger[Succeeded(p)] + s.ledger[Ambiguous(p)]
                 + Count(s.handlers, InFlight(p)) + s.ledger[Foreign(JStr(p))];
    Occurs(s, p) <= total && (s.ledger[Reapplied] == 0 ==> Occurs(s, p) == total)
  }

  /** One success per event answered as revoked. */
  predicate Credited(s: State, p: string) {
    s.ledger[Succeeded(p)] == Count(s.handlers, Answered(Revoked, p))
  }

  ghost predicate Inv(s: State) {
    && HasList(s.seed) && HasList(s.policy)
    && (forall p :: Balanced(s, p))
    && (forall p :: Marked(s, p))
    && (forall p :: Credited(s, p))
    && (forall p :: Listed(s, p))
  }

  // ---- one step ---------------------------------------------------------

  /** How one step changes a count over the handlers. */
  lemma CountStep(s: State, a: Action, keep: Handler -> bool)
    requires Enabled(s, a)
    ensures var t := Apply(s, a);
            && |t.handlers| == |s.handlers| + One(a.Receive?)
            && (Mover(a).Some? ==> var i := Mover(a).value;
                  t.handlers == s.handlers[i := t.handlers[i]] && t.handlers[i].body == s.handlers[i].body &&
                  Count(t.handlers, keep) + One(keep(s.handlers[i]))
                      == Count(s.handlers, keep) + One(keep(t.handlers[i])))
            && (a.Receive? ==> Count(t.handlers, keep) == Count(s.handlers, keep) + One(keep(t.handlers[|s.handlers|])))
            && (Mover(a).None? && !a.Receive? ==> t.handlers == s.handlers)
  {
    var t := Apply(s, a);
    if Mover(a).Some? {
      CountUpdate(s.handlers, Mover(a).value, t.handlers[Mover(a).value], keep);
    } else if a.Receive? {
      CountSnoc(s.handlers, t.handlers[|s.handlers|], keep);
    }
  }

  /** Where a step takes the handler it moves. */
  function NextPhase(h: Handler, revoked: set<string>, a: Action): Phase {
    match a
    case Reject(_) => Returned(Failed)
    case Acquire(_) => if Target(h).Some? && Target(h).value in revoked then Returned(Deduped) else Held
    case ServerApplies(_) => Patched
    case PatchOk(_) => Returned(Revoked)
    case PatchError(_) => PatchFailed
    case Abandon(_) => PatchFailed
    case Rollback(_) => Returned(Failed)
    case Bump(_) => if h.phase.Returned? then Counted(h.phase.o) else h.phase
    case Observe(_, own) => if h.phase.Counted? then Observed(h.phase.o, own) else h.phase
    case Report(_, _) => if h.phase.Observed? then Done(h.phase.o) else h.phase
    case _ => h.phase
  }

  lemma NextPhaseIs(s: State, a: Action, i: nat)
    requires Enabled(s, a) && Mover(a) == Some(i)
    ensures i < |Apply(s, a).handlers|
    ensures Apply(s, a).handlers[i] == s.handlers[i].(phase := NextPhase(s.handlers[i], s.revoked, a))
  {}

  /** The entry a step books. */
  function Booked(s: State, a: Action): multiset<Entry>
    requires Enabled(s, a)
  {
    match a
    case PatchOk(i) => multiset{Succeeded(Target(s.handlers[i]).value)}
    case PatchError(i) => if s.handlers[i].phase.Patched? then multiset{Ambiguous(Target(s.handlers[i]).value)}
        else multiset{}
    case Rollback(i) =>
      if Target(s.handlers[i]).value in s.revoked then multiset{} else multiset{Missed(Target(s.handlers[i]).value)}
    case SweepDelete(j) =>
      if s.sweeps[j].pending.value in s.revoked then multiset{Swept(s.sweeps[j].pending.value)} else multiset{}
    case Reapply => multiset{Reapplied}
    case ForeignAppend(v) => multiset{Foreign(v)}
    case LateApply(p) => multiset{Ambiguous(p)}
    case _ => multiset{}
  }

  lemma BookedStep(s: State, a: Action)
    requires Enabled(s, a)
    ensures Apply(s, a).ledger == s.ledger + Booked(s, a)
  {}

  /** The marks after a step. */
  function NextMarks(s: State, a: Action): set<string>
    requires Enabled(s, a)
  {
    match a
    case Acquire(i) => s.revoked + {Target(s.handlers[i]).value}
    case Rollback(i) => s.revoked - {Target(s.handlers[i]).value}
    case SweepDelete(j) => s.revoked - {s.sweeps[j].pending.value}
    case _ => s.revoked
  }

  lemma NextMarksIs(s: State, a: Action)
    requires Enabled(s, a)
    ensures Apply(s, a).revoked == NextMarks(s, a)
  {}

  /** Holders of `p` come and go only by these steps. */
  lemma HoldingStep(s: State, a: Action, p: string)
    requires Enabled(s, a)
    ensures Count(Apply(s, a).handlers, Holding(p)) ==
            Count(s.handlers, Holding(p)) + One(Takes(s, a, p)) - One(Leaves(s, a, p))
  {
    CountStep(s, a, Holding(p));
    if Mover(a).Some? {
      NextPhaseIs(s, a, Mover(a).value);
    }
  }

  predicate Takes(s: State, a: Action, p: string)
    requires Enabled(s, a)
  {
    a.Acquire? && Target(s.handlers[a.i]) == Some(p) && p !in s.revoked
  }

  predicate Leaves(s: State, a: Action, p: string)
    requires Enabled(s, a)
  {
    (a.PatchOk? || a.Rollback?) && Target(s.handlers[a.i]) == Some(p)
  }

  lemma BalancedStep(s: State, a: Action, p: string)
    requires Enabled(s, a) && Balanced(s, p) && Marked(s, p)
    ensures Balanced(Apply(s, a), p) && Marked(Apply(s, a), p)
  {
    HoldingStep(s, a, p);
    MarkStep(s, a, p);
    LedgerStep(s, a, p);
  }

  lemma MarkStep(s: State, a: Action, p: string)
    requires Enabled(s, a)
    ensures p in Apply(s, a).revoked <==>
            (p in s.revoked && !(a.Rollback? && Target(s.handlers[a.i]) == Some(p))
                            && !(a.SweepDelete? && s.sweeps[a.j].pending == Some(p)))
            || Takes(s, a, p)
  {}

  lemma LedgerStep(s: State, a: Action, p: string)
    requires Enabled(s, a)
    ensures var t, l := Apply(s, a).ledger, s.ledger;
            && t[Succeeded(p)] == l[Succeeded(p)] + One(a.PatchOk? && Target(s.handlers[a.i]) == Some(p))
            && t[Missed(p)] == l[Missed(p)] + One(a.Rollback? && Target(s.handlers[a.i]) == Some(p) && p !in s.revoked)
            && t[Swept(p)] == l[Swept(p)] + One(a.SweepDelete? && s.sweeps[a.j].pending == Some(p) && p in s.revoked)
  {
    BookedStep(s, a);
  }

  lemma ListedStep(s: State, a: Action, p: string)
    requires Enabled(s, a) && HasList(s.seed) && HasList(s.policy) && Listed(s, p)
    ensures HasList(Apply(s, a).seed) && HasList(Apply(s, a).policy) && Listed(Apply(s, a), p)
  {
    PolicyStep(s, a);
    InFlightStep(s, a, p);
    LedgerStep(s, a, p);
    ListLedgerStep(s, a, p);
  }

  /** The list only ever grows by one appended value, or goes back to the seed. */
  lemma PolicyStep(s: State, a: Action)
    requires Enabled(s, a) && HasList(s.seed) && HasList(s.policy)
    ensures var t := Apply(s, a);
            && t.seed == s.seed && HasList(t.policy)
            && ListOf(t.policy) == match a
               case ServerApplies(i) => ListOf(s.policy) + [JStr(Target(s.handlers[i]).value)]
               case ForeignAppend(v) => ListOf(s.policy) + [v]
               case LateApply(p) => ListOf(s.policy) + [JStr(p)]
               case Reapply => ListOf(s.seed)
               case _ => ListOf(s.policy)
    ensures !a.Reapply? ==> SameElsewhere(s.policy, Apply(s, a).policy)
  {
    if a.ServerApplies? {
      AppendEffect(s.policy, JStr(Target(s.handlers[a.i]).value));
    } else if a.ForeignAppend? {
      AppendEffect(s.policy, a.v);
    } else if a.LateApply? {
      AppendEffect(s.policy, JStr(a.p));
    }
  }

  lemma InFlightStep(s: State, a: Action, p: string)
    requires Enabled(s, a)
    ensures Count(Apply(s, a).handlers, InFlight(p)) == Count(s.handlers, InFlight(p))
            + One(a.ServerApplies? && Target(s.handlers[a.i]) == Some(p))
            - One((a.PatchOk? || (a.PatchError? && s.handlers[a.i].phase.Patched?))
                && Target(s.handlers[a.i]) == Some(p))
  {
    CountStep(s, a, InFlight(p));
  }

  lemma ListLedgerStep(s: State, a: Action, p: string)
    requires Enabled(s, a)
    ensures var t, l := Apply(s, a).ledger, s.ledger;
            && t[Ambiguous(p)] == l[Ambiguous(p)]
               + One(a.PatchError? && s.handlers[a.i].phase.Patched? && Target(s.handlers[a.i]) == Some(p))
               + One(a.LateApply? && a.p == p)
            && t[Foreign(JStr(p))] == l[Foreign(JStr(p))] + One(a.ForeignAppend? && a.v == JStr(p))
            && t[Reapplied] == l[Reapplied] + One(a.Reapply?)
  {
    BookedStep(s, a);
  }

  /** An answer, once given, stays; and only the answering step gives it. */
  lemma SettledStep(s: State, a: Action, o: Outcome)
    requires Enabled(s, a) && Mover(a).Some?
    ensures var i := Mover(a).value;
            && (Settled(Apply(s, a).handlers[i].phase, o) <==> Settled(s.handlers[i].phase, o) || Answers(s, a, o))
            && !(Settled(s.handlers[i].phase, o) && Answers(s, a, o))
  {
    var h := s.handlers[Mover(a).value];
    NextPhaseIs(s, a, Mover(a).value);
    NextSettled(h, s.revoked, a, o);
  }

  /** A phase past the answer keeps it; one before it gets what the step answers. */
  lemma NextSettled(h: Handler, revoked: set<string>, a: Action, o: Outcome)
    ensures (a.Bump? && h.phase.Returned?) || (a.Observe? && h.phase.Counted?) || (a.Report? && h.phase.Observed?) ==>
              (Settled(NextPhase(h, revoked, a), o) <==> Settled(h.phase, o))
    ensures a.ServerApplies? || a.PatchError? || a.Abandon? ==> !Settled(NextPhase(h, revoked, a), o)
    ensures a.PatchOk? || a.Reject? || a.Rollback? ==>
              (Settled(NextPhase(h, revoked, a), o) <==> o == if a.PatchOk? then Revoked else Failed)
    ensures a.Acquire? && Target(h).Some? ==>
              (Settled(NextPhase(h, revoked, a), o) <==> o.Deduped? && Target(h).value in revoked)
  {}

  lemma AnsweredStep(s: State, a: Action, o: Outcome, p: string)
    requires Enabled(s, a)
    ensures Count(Apply(s, a).handlers, Answered(o, p)) == Count(s.handlers, Answered(o, p))
            + One(Answers(s, a, o) && Target(s.handlers[a.i]) == Some(p))
  {
    CountStep(s, a, Answered(o, p));
    if Mover(a).Some? {
      SettledStep(s, a, o);
    }
  }

  /** The step that makes `revokeInMesh` return `o`. */
  predicate Answers(s: State, a: Action, o: Outcome)
    requires Enabled(s, a)
  {
    match o
    case Revoked => a.PatchOk?
    case Deduped => a.Acquire? && Target(s.handlers[a.i]).value in s.revoked
    case Failed => a.Rollback? || a.Reject?
  }

  lemma CreditedStep(s: State, a: Action, p: string)
    requires Enabled(s, a) && Credited(s, p)
    ensures Credited(Apply(s, a), p)
  {
    AnsweredStep(s, a, Revoked, p);
    LedgerStep(s, a, p);
  }

  lemma InvStep(s: State, a: Action)
    requires Enabled(s, a) && Inv(s)
    ensures Inv(Apply(s, a))
  {
    forall p ensures Balanced(Apply(s, a), p) && Marked(Apply(s, a), p) {
      BalancedStep(s, a, p);
    }
    forall p ensures Credited(Apply(s, a), p) {
      CreditedStep(s, a, p);
    }
    ListedStep(s, a, "");
    forall p ensures Listed(Apply(s, a), p) {
      ListedStep(s, a, p);
    }
  }

  lemma {:induction false} InvRun(s: State, acts: seq<Action>)
    requires Inv(s) && Run(s, acts).Some?
    ensures Inv(Run(s, acts).value)
  {
    if acts == [] {
    } else {
      InvRun(s, acts[..|acts| - 1]);
      InvStep(Run(s, acts[..|acts| - 1]).value, acts[|acts| - 1]);
    }
  }

  lemma InitInv(seed: Json, policyRef: string)
    requires HasList(seed)
    ensures Inv(Init(seed, policyRef))
  {}

  // ---- results ----------------------------------------------------------

  /** Conservation, from the start, over every interleaving of handlers, resets, re-applies and
      other writers. In particular successes and holders of `p` never exceed one for its mark plus
      the marks of `p` that resets removed, even when a failing handler deletes another one's mark. */
  lemma Conservation(seed: Json, policyRef: string, s: State, p: string)
    requires HasList(seed) && Reachable(s, seed, policyRef)
    ensures s.ledger[Succeeded(p)] + Count(s.handlers, Holding(p)) + s.ledger[Missed(p)]
         == One(p in s.revoked) + s.ledger[Swept(p)]
    ensures p in s.revoked ==> s.ledger[Succeeded(p)] + Count(s.handlers, Holding(p)) >= 1
    ensures s.ledger[Missed(p)] <= s.ledger[Swept(p)]
    ensures s.ledger[Succeeded(p)] == Count(s.handlers, Answered(Revoked, p))
  {
    var acts :| Run(Init(seed, policyRef), acts) == Some(s);
    InitInv(seed, policyRef);
    InvRun(Init(seed, policyRef), acts);
    assert Balanced(s, p) && Marked(s, p) && Credited(s, p);
  }

  /** `p` occurs in the policy at most once per mark ever alive, beyond the seed's own entries,
      patches that errored yet were applied, and other writers. */
  lemma OccurrenceBound(seed: Json, policyRef: string, s: State, p: string)
    requires HasList(seed) && Reachable(s, seed, policyRef)
    ensures HasList(s.policy) && s.seed == seed
    ensures Occurs(s, p) + s.ledger[Missed(p)]
         <= 1 + s.ledger[Swept(p)] + multiset(ListOf(seed))[JStr(p)] + s.ledger[Ambiguous(p)]
             + s.ledger[Foreign(JStr(p))]
  {
    var acts :| Run(Init(seed, policyRef), acts) == Some(s);
    InitInv(seed, policyRef);
    InvRun(Init(seed, policyRef), acts);
    SeedFixed(Init(seed, policyRef), acts);
    assert Balanced(s, p) && Listed(s, p);
    InFlightHolds(s.handlers, p);
  }

  /** Without resets a principal has at most one holder at a time, and its mark is there exactly
      when it was revoked with success or is held. */
  lemma WithoutResets(seed: Json, policyRef: string, s: State, p: string)
    requires HasList(seed) && Reachable(s, seed, policyRef)
    requires s.ledger[Swept(p)] == 0
    ensures s.ledger[Succeeded(p)] + Count(s.handlers, Holding(p)) == One(p in s.revoked)
  {
    Conservation(seed, policyRef, s, p);
  }

  lemma {:induction false} InFlightHolds(hs: seq<Handler>, p: string)
    ensures Count(hs, InFlight(p)) <= Count(hs, Holding(p))
  {
    if hs == [] {
    } else {
      InFlightHolds(hs[..|hs| - 1], p);
    }
  }

  lemma {:induction false} SeedFixed(s: State, acts: seq<Action>)
    requires Run(s, acts).Some?
    ensures Run(s, acts).value.seed == s.seed && Run(s, acts).value.policyRef == s.policyRef
  {
    if acts == [] {
    } else {
      SeedFixed(s, acts[..|acts| - 1]);
    }
  }
}
