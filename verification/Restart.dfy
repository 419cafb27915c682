/** After a trial reset the process behaves as a fresh one: every schedule of a fresh process runs from the
    reset state, and the other way round, with the same outcomes step by step; and when that fails. */
module Restart {
  import opened Common
  import opened Json
  import opened Policy
  import Identity
  import Logfmt
  import Spans
  import opened Protocol
  import opened Ledger
  import opened Resets
  import opened Safety

  /** The action of a fresh process, carried out by the handlers and sweeps that come after `n` and `m` old ones. */
  function Shift(a: Action, n: nat, m: nat): Action {
    match a
    case Reject(i) => Reject(i + n)
    case Acquire(i) => Acquire(i + n)
    case ServerApplies(i) => ServerApplies(i + n)
    case PatchOk(i) => PatchOk(i + n)
    case PatchError(i) => PatchError(i + n)
    case Abandon(i) => Abandon(i + n)
    case Rollback(i) => Rollback(i + n)
    case Bump(i) => Bump(i + n)
    case Observe(i, own) => Observe(i + n, own)
    case Report(i, r) => Report(i + n, r)
    case SweepVisit(j, k) => SweepVisit(j + m, k)
    case SweepDelete(j) => SweepDelete(j + m)
    case SweepEnd(j) => SweepEnd(j + m)
    case other => other
  }

  function ShiftAll(acts: seq<Action>, n: nat, m: nat): seq<Action> {
    Map(acts, (a: Action) => Shift(a, n, m))
  }

  // ---- how the two processes compare ------------------------------------

  predicate SameHandlers(t: State, f: State, g: State) {
    g.handlers == t.handlers + f.handlers
  }

  predicate SameMarks(f: State, g: State) {
    && g.revoked == f.revoked && g.policy == f.policy && g.seed == f.seed && g.policyRef == f.policyRef
    && g.late == f.late
  }

  /** `gs` is `fs` behind `m` sweeps that have ended. */
  predicate Later(m: nat, fs: seq<Sweep>, gs: seq<Sweep>) {
    && |gs| == m + |fs|
    && (forall j :: 0 <= j < m ==> gs[j].ended)
    && (forall j :: m <= j < |gs| ==> gs[j] == fs[j - m])
  }

  predicate SameSweeps(t: State, f: State, g: State) {
    Later(|t.sweeps|, f.sweeps, g.sweeps)
  }

  /** Counters, samples and log go on from where the reset left them. */
  predicate SameCounts(t: State, f: State, g: State) {
    && g.counts.revoked == t.counts.revoked + f.counts.revoked
    && g.counts.deduped == t.counts.deduped + f.counts.deduped
    && g.counts.failed == t.counts.failed + f.counts.failed
    && g.stages == t.stages + f.stages && g.pipeline == t.pipeline + f.pipeline && g.log == t.log + f.log
  }

  /** And so does the ledger. */
  predicate SameTotals(t: State, f: State, g: State) {
    SameCounts(t, f, g) && g.ledger == t.ledger + f.ledger
  }

  /** `g`, reached from the reset state `t`, is `f`, reached by a fresh process. */
  predicate Alike(t: State, f: State, g: State) {
    SameHandlers(t, f, g) && SameMarks(f, g) && SameSweeps(t, f, g) && SameTotals(t, f, g)
  }

  // ---- one step ---------------------------------------------------------

  lemma EnabledAlike(t: State, f: State, g: State, a: Action)
    requires SameHandlers(t, f, g) && SameMarks(f, g) && SameSweeps(t, f, g)
    ensures Enabled(f, a) <==> Enabled(g, Shift(a, |t.handlers|, |t.sweeps|))
  {
    var b := Shift(a, |t.handlers|, |t.sweeps|);
    if Mover(a).Some? {
      assert Mover(b) == Some(Mover(a).value + |t.handlers|);
      assert Mover(a).value < |f.handlers| ==> g.handlers[Mover(b).value] == f.handlers[Mover(a).value];
    }
  }

  lemma UpdateLater<T>(ys: seq<T>, xs: seq<T>, i: nat, x: T)
    requires i < |xs|
    ensures (ys + xs)[i + |ys| := x] == ys + xs[i := x]
  {}

  lemma HandlersAlike(t: State, f: State, g: State, a: Action)
    requires SameHandlers(t, f, g) && SameMarks(f, g)
    requires Enabled(f, a) && Enabled(g, Shift(a, |t.handlers|, |t.sweeps|))
    ensures SameHandlers(t, Apply(f, a), Apply(g, Shift(a, |t.handlers|, |t.sweeps|)))
  {
    var n := |t.handlers|;
    var b := Shift(a, n, |t.sweeps|);
    if Mover(a).Some? {
      var i := Mover(a).value;
      MovedOne(f, a, i);
      MovedOne(g, b, i + n);
      MoverAlike(f, g, a, i, n, |t.sweeps|);
      UpdateLater(t.handlers, f.handlers, i, Apply(f, a).handlers[i]);
    } else {
      OthersAlike(f, a);
      OthersAlike(g, b);
      assert a.Receive? ==> t.handlers + (f.handlers + Arriving(a)) == t.handlers + f.handlers + Arriving(a);
    }
  }

  lemma MovedOne(s: State, a: Action, i: nat)
    requires Enabled(s, a) && Mover(a) == Some(i)
    ensures |Apply(s, a).handlers| == |s.handlers|
    ensures Apply(s, a).handlers == s.handlers[i := Apply(s, a).handlers[i]]
  {
    CountStep(s, a, Holding(""));
  }

  /** The handlers an action adds. */
  function Arriving(a: Action): seq<Handler> {
    if a.Receive? then [Handler(a.body, if a.body.Garbled? then Returned(Failed) else Start)] else []
  }

  lemma OthersAlike(s: State, a: Action)
    requires Enabled(s, a) && Mover(a).None?
    ensures Apply(s, a).handlers == s.handlers + Arriving(a)
  {}

  lemma MoverAlike(f: State, g: State, a: Action, i: nat, n: nat, m: nat)
    requires Enabled(f, a) && Enabled(g, Shift(a, n, m)) && Mover(a) == Some(i)
    requires i + n < |g.handlers| && f.handlers[i] == g.handlers[i + n] && f.revoked == g.revoked
    ensures i + n < |Apply(g, Shift(a, n, m)).handlers|
        && Apply(f, a).handlers[i] == Apply(g, Shift(a, n, m)).handlers[i + n]
  {
    NextPhaseIs(f, a, i);
    NextPhaseIs(g, Shift(a, n, m), i + n);
  }

  /** The policy and the patches given up on after a step. */
  function NextPolicy(s: State, a: Action): (Json, multiset<string>)
    requires Enabled(s, a)
  {
    match a
    case ServerApplies(i) => (Append(s.policy, JStr(Target(s.handlers[i]).value)).value, s.late)
    case Abandon(i) => (s.policy, s.late + multiset{Target(s.handlers[i]).value})
    case Reapply => (s.seed, s.late)
    case ForeignAppend(v) => (Append(s.policy, v).value, s.late)
    case LateApply(p) => (Append(s.policy, JStr(p)).value, s.late - multiset{p})
    case _ => (s.policy, s.late)
  }

  lemma NextPolicyIs(s: State, a: Action)
    requires Enabled(s, a)
    ensures (Apply(s, a).policy, Apply(s, a).late) == NextPolicy(s, a)
    ensures Apply(s, a).seed == s.seed && Apply(s, a).policyRef == s.policyRef
  {}

  lemma MarksAlike(t: State, f: State, g: State, a: Action)
    requires SameHandlers(t, f, g) && SameMarks(f, g) && SameSweeps(t, f, g)
    requires Enabled(f, a) && Enabled(g, Shift(a, |t.handlers|, |t.sweeps|))
    ensures SameMarks(Apply(f, a), Apply(g, Shift(a, |t.handlers|, |t.sweeps|)))
  {
    var b := Shift(a, |t.handlers|, |t.sweeps|);
    NextMarksIs(f, a);
    NextMarksIs(g, b);
    NextPolicyIs(f, a);
    NextPolicyIs(g, b);
    if Mover(a).Some? {
      assert g.handlers[Mover(a).value + |t.handlers|] == f.handlers[Mover(a).value];
    }
  }

  /** The sweeps after a step. */
  function NextSweeps(s: State, a: Action): seq<Sweep>
    requires Enabled(s, a)
  {
    match a
    case Acquire(i) =>
      var p := Target(s.handlers[i]).value;
      if p in s.revoked then s.sweeps else NoteStore(s.sweeps, p)
    case Rollback(i) => NoteDelete(s.sweeps, Target(s.handlers[i]).value)
    case SweepBegin => s.sweeps + [Sweep(s.revoked, s.revoked, {}, {}, None, 0, false)]
    case SweepVisit(j, k) => s.sweeps[j := s.sweeps[j].(visited := s.sweeps[j].visited + {k}, pending := Some(k))]
    case SweepDelete(j) =>
      NoteDelete(s.sweeps[j := s.sweeps[j].(pending := None, cleared := s.sweeps[j].cleared + 1)],
          s.sweeps[j].pending.value)
    case SweepEnd(j) => s.sweeps[j := s.sweeps[j].(ended := true)]
    case _ => s.sweeps
  }

  lemma NextSweepsIs(s: State, a: Action)
    requires Enabled(s, a)
    ensures Apply(s, a).sweeps == NextSweeps(s, a)
  {}

  lemma LaterNoted(m: nat, fs: seq<Sweep>, gs: seq<Sweep>, p: string)
    requires Later(m, fs, gs)
    ensures Later(m, NoteStore(fs, p), NoteStore(gs, p)) && Later(m, NoteDelete(fs, p), NoteDelete(gs, p))
  {}

  lemma LaterUpdate(m: nat, fs: seq<Sweep>, gs: seq<Sweep>, j: nat, w: Sweep)
    requires Later(m, fs, gs) && j < |fs|
    ensures gs[j + m] == fs[j] && Later(m, fs[j := w], gs[j + m := w])
  {}

  lemma SweepsAlike(t: State, f: State, g: State, a: Action)
    requires SameHandlers(t, f, g) && SameMarks(f, g) && SameSweeps(t, f, g)
    requires Enabled(f, a) && Enabled(g, Shift(a, |t.handlers|, |t.sweeps|))
    ensures SameSweeps(t, Apply(f, a), Apply(g, Shift(a, |t.handlers|, |t.sweeps|)))
  {
    NextSweepsIs(f, a);
    NextSweepsIs(g, Shift(a, |t.handlers|, |t.sweeps|));
    NextAlike(t, f, g, a);
  }

  lemma NextAlike(t: State, f: State, g: State, a: Action)
    requires SameHandlers(t, f, g) && SameMarks(f, g) && SameSweeps(t, f, g)
    requires Enabled(f, a) && Enabled(g, Shift(a, |t.handlers|, |t.sweeps|))
    ensures Later(|t.sweeps|, NextSweeps(f, a), NextSweeps(g, Shift(a, |t.handlers|, |t.sweeps|)))
  {
    var m := |t.sweeps|;
    var b := Shift(a, |t.handlers|, m);
    if a.Acquire? || a.Rollback? {
      assert g.handlers[a.i + |t.handlers|] == f.handlers[a.i];
      LaterNoted(m, f.sweeps, g.sweeps, Target(f.handlers[a.i]).value);
    } else if a.SweepVisit? || a.SweepDelete? || a.SweepEnd? {
      SweptAlike(m, f, g, a, b);
    }
  }

  /** A step of a sweep. */
  lemma SweptAlike(m: nat, f: State, g: State, a: Action, b: Action)
    requires Enabled(f, a) && Enabled(g, b) && b == Shift(a, 0, m) && Later(m, f.sweeps, g.sweeps)
    requires a.SweepVisit? || a.SweepDelete? || a.SweepEnd?
    ensures Later(m, NextSweeps(f, a), NextSweeps(g, b))
  {
    var w := f.sweeps[a.j];
    var next := if a.SweepVisit? then w.(visited := w.visited + {a.key}, pending := Some(a.key))
                else if a.SweepDelete? then w.(pending := None, cleared := w.cleared + 1) else w.(ended := true);
    LaterUpdate(m, f.sweeps, g.sweeps, a.j, next);
    if a.SweepDelete? {
      LaterNoted(m, f.sweeps[a.j := next], g.sweeps[a.j + m := next], w.pending.value);
    }
  }

  /** The spans a step feeds to the histograms. */
  function Fed(s: State, a: Action): seq<Spans.Span>
    requires Enabled(s, a)
  {
    if a.Observe? then Actuated(s.handlers[a.i].body, s.handlers[a.i].phase.o, a.own) else []
  }

  /** The lines a step logs. */
  function Logged(s: State, a: Action): seq<Logfmt.Pairs>
    requires Enabled(s, a)
  {
    if a.Report? then [OutcomeLine(s.policyRef, s.handlers[a.i].body, s.handlers[a.i].phase.o, a.reading)]
    else if a.Noise? then [a.line] else []
  }

  lemma MoreSamples(t: State, f: State, g: State, fed: seq<Spans.Span>, lines: seq<Logfmt.Pairs>)
    requires SameCounts(t, f, g)
    ensures g.stages + Spans.Samples(fed, false) == t.stages + (f.stages + Spans.Samples(fed, false))
    ensures g.pipeline + Spans.Samples(fed, true) == t.pipeline + (f.pipeline + Spans.Samples(fed, true))
    ensures g.log + lines == t.log + (f.log + lines)
  {}

  /** What a step adds to the running totals. */
  lemma TotalsStep(s: State, a: Action)
    requires Enabled(s, a)
    ensures Apply(s, a).counts == if a.Bump? then s.counts.Bump(s.handlers[a.i].phase.o) else s.counts
    ensures Apply(s, a).stages == s.stages + Spans.Samples(Fed(s, a), false)
    ensures Apply(s, a).pipeline == s.pipeline + Spans.Samples(Fed(s, a), true)
    ensures Apply(s, a).log == s.log + Logged(s, a)
  {}

  lemma BookedAlike(t: State, f: State, g: State, a: Action)
    requires SameHandlers(t, f, g) && SameMarks(f, g) && SameSweeps(t, f, g)
    requires Enabled(f, a) && Enabled(g, Shift(a, |t.handlers|, |t.sweeps|))
    ensures Booked(g, Shift(a, |t.handlers|, |t.sweeps|)) == Booked(f, a)
  {
    if Mover(a).Some? {
      assert g.handlers[Mover(a).value + |t.handlers|] == f.handlers[Mover(a).value];
    }
  }

  lemma TotalsAlike(t: State, f: State, g: State, a: Action)
    requires SameHandlers(t, f, g) && SameMarks(f, g) && SameSweeps(t, f, g) && SameTotals(t, f, g)
    requires Enabled(f, a) && Enabled(g, Shift(a, |t.handlers|, |t.sweeps|))
    ensures SameTotals(t, Apply(f, a), Apply(g, Shift(a, |t.handlers|, |t.sweeps|)))
  {
    var b := Shift(a, |t.handlers|, |t.sweeps|);
    CountsAlike(t, f, g, a);
    BookedStep(f, a);
    BookedStep(g, b);
    BookedAlike(t, f, g, a);
    AddLater(t.ledger, f.ledger, Booked(f, a));
  }

  lemma AddLater<T>(x: multiset<T>, y: multiset<T>, z: multiset<T>)
    ensures x + (y + z) == x + y + z
  {}

  lemma CountsAlike(t: State, f: State, g: State, a: Action)
    requires SameHandlers(t, f, g) && SameMarks(f, g) && SameCounts(t, f, g)
    requires Enabled(f, a) && Enabled(g, Shift(a, |t.handlers|, |t.sweeps|))
    ensures SameCounts(t, Apply(f, a), Apply(g, Shift(a, |t.handlers|, |t.sweeps|)))
  {
    if Mover(a).Some? {
      assert g.handlers[Mover(a).value + |t.handlers|] == f.handlers[Mover(a).value];
    }
    var b := Shift(a, |t.handlers|, |t.sweeps|);
    TotalsStep(f, a);
    TotalsStep(g, b);
    MoreSamples(t, f, g, Fed(f, a), Logged(f, a));
  }

  lemma StepAlike(t: State, f: State, g: State, a: Action)
    requires Alike(t, f, g)
    ensures Enabled(f, a) <==> Enabled(g, Shift(a, |t.handlers|, |t.sweeps|))
    ensures Enabled(f, a) ==> Alike(t, Apply(f, a), Apply(g, Shift(a, |t.handlers|, |t.sweeps|)))
  {
    EnabledAlike(t, f, g, a);
    if Enabled(f, a) {
      HandlersAlike(t, f, g, a);
      MarksAlike(t, f, g, a);
      SweepsAlike(t, f, g, a);
      TotalsAlike(t, f, g, a);
    }
  }

  // ---- whole runs -------------------------------------------------------

  /** A fresh process with the same policy at the seed, and the same patches that an earlier client gave up
      on still out; with none out, `Init`. */
  function Fresh(t: State): State {
    Init(t.seed, t.policyRef).(late := t.late)
  }

  lemma StartAlike(t: State)
    requires Clean(t)
    ensures Alike(t, Fresh(t), t)
  {
    assert t.handlers + [] == t.handlers && t.log + [] == t.log;
    assert t.ledger + multiset{} == t.ledger;
  }

  /** From a clean state a fresh process's schedule runs exactly when a fresh process can run it, and then
      with the same outcomes: the same answers to the new events, the same marks and policy, the same new
      samples, log lines and ledger entries, and counters that moved by the same amounts. */
  lemma {:induction false} CleanIsFresh(t: State, acts: seq<Action>)
    requires Clean(t)
    ensures var f, g := Run(Fresh(t), acts), Run(t, ShiftAll(acts, |t.handlers|, |t.sweeps|));
            && (f.Some? <==> g.Some?)
            && (f.Some? ==> Alike(t, f.value, g.value))
  {
    if acts == [] {
      StartAlike(t);
    } else {
      var n, m := |t.handlers|, |t.sweeps|;
      var init, a := acts[..|acts| - 1], acts[|acts| - 1];
      CleanIsFresh(t, init);
      assert ShiftAll(acts, n, m)[..|acts| - 1] == ShiftAll(init, n, m);
      var f, g := Run(Fresh(t), init), Run(t, ShiftAll(init, n, m));
      if f.Some? {
        StepAlike(t, f.value, g.value, a);
      }
    }
  }

  /** The action of a fresh process behind an action of later handlers and sweeps. */
  function Unshift(b: Action, n: nat, m: nat): Action {
    match b
    case Reject(i) => Reject(Less(i, n))
    case Acquire(i) => Acquire(Less(i, n))
    case ServerApplies(i) => ServerApplies(Less(i, n))
    case PatchOk(i) => PatchOk(Less(i, n))
    case PatchError(i) => PatchError(Less(i, n))
    case Abandon(i) => Abandon(Less(i, n))
    case Rollback(i) => Rollback(Less(i, n))
    case Bump(i) => Bump(Less(i, n))
    case Observe(i, own) => Observe(Less(i, n), own)
    case Report(i, r) => Report(Less(i, n), r)
    case SweepVisit(j, k) => SweepVisit(Less(j, m), k)
    case SweepDelete(j) => SweepDelete(Less(j, m))
    case SweepEnd(j) => SweepEnd(Less(j, m))
    case other => other
  }

  function Less(i: nat, n: nat): nat {
    if i < n then 0 else i - n
  }

  lemma OldDone(t: State, g: State, i: nat)
    requires Quiescent(t) && t.handlers <= g.handlers && i < |g.handlers| && !g.handlers[i].phase.Done?
    ensures i >= |t.handlers|
  {
    assert forall k :: 0 <= k < |t.handlers| ==> g.handlers[k] == t.handlers[k];
  }

  /** No old handler and no old sweep can move any more. */
  lemma OldStay(t: State, f: State, g: State, b: Action)
    requires Quiescent(t) && SameHandlers(t, f, g) && SameSweeps(t, f, g) && Enabled(g, b)
    ensures b == Shift(Unshift(b, |t.handlers|, |t.sweeps|), |t.handlers|, |t.sweeps|)
  {
    if Mover(b).Some? {
      OldDone(t, g, Mover(b).value);
    }
  }

  /** `b` from `t` is `acts` of the fresh process `f0`, and ends alike. */
  ghost predicate Mirrors(t: State, b: seq<Action>, f0: State, acts: seq<Action>) {
    && b == ShiftAll(acts, |t.handlers|, |t.sweeps|)
    && Run(t, b).Some? && Run(f0, acts).Some?
    && Alike(t, Run(f0, acts).value, Run(t, b).value)
  }

  /** And from a clean state nothing else runs: every run is the run of a fresh process. */
  lemma {:induction false} RunIsFresh(t: State, b: seq<Action>) returns (acts: seq<Action>)
    requires Clean(t) && Run(t, b).Some?
    ensures Mirrors(t, b, Fresh(t), acts)
  {
    if b == [] {
      acts := MirrorsStart(t);
    } else {
      var init, last := Unsnoc(t, b);
      var before := RunIsFresh(t, init);
      acts := MirrorsNext(t, init, Fresh(t), before, last);
    }
  }

  lemma MirrorsStart(t: State) returns (acts: seq<Action>)
    requires Clean(t)
    ensures Mirrors(t, [], Fresh(t), acts)
  {
    acts := [];
    StartAlike(t);
  }

  lemma Unsnoc(t: State, b: seq<Action>) returns (init: seq<Action>, last: Action)
    requires b != [] && Run(t, b).Some?
    ensures b == init + [last] && Run(t, init).Some? && Enabled(Run(t, init).value, last)
  {
    init, last := b[..|b| - 1], b[|b| - 1];
  }

  lemma MirrorsNext(t: State, b: seq<Action>, f0: State, acts: seq<Action>, last: Action) returns (more: seq<Action>)
    requires Quiescent(t) && Mirrors(t, b, f0, acts) && Enabled(Run(t, b).value, last)
    ensures Mirrors(t, b + [last], f0, more)
  {
    var f, g := Run(f0, acts).value, Run(t, b).value;
    var a, next := NextFresh(t, f, g, last);
    more := acts + [a];
    Extend(f0, acts, f, a, next);
    Extend(t, b, g, last, Apply(g, last));
    MapSnoc(acts, a, (x: Action) => Shift(x, |t.handlers|, |t.sweeps|));
  }

  lemma NextFresh(t: State, f: State, g: State, b: Action) returns (a: Action, next: State)
    requires Quiescent(t) && Alike(t, f, g) && Enabled(g, b)
    ensures b == Shift(a, |t.handlers|, |t.sweeps|)
    ensures Enabled(f, a) && next == Apply(f, a) && Alike(t, next, Apply(g, b))
  {
    OldStay(t, f, g, b);
    a := Unshift(b, |t.handlers|, |t.sweeps|);
    StepAlike(t, f, g, a);
    next := Apply(f, a);
  }

  // ---- what a sweep still running can do --------------------------------

  predicate NoSweep(acts: seq<Action>) {
    forall i :: 0 <= i < |acts| ==> !acts[i].SweepBegin?
  }

  /** Nobody ever holds a principal together with somebody else. */
  ghost predicate OneHolder(s: State) {
    forall p :: Count(s.handlers, Holding(p)) <= 1
  }

  ghost predicate KeepsOneHolder(t: State, b: seq<Action>) {
    NoSweep(b) && Run(t, b).Some? ==> OneHolder(Run(t, b).value)
  }

  /** A fresh process that begins no sweep has none, and removes no mark with one. */
  lemma {:induction false} NeverSwept(t: State, acts: seq<Action>, p: string)
    requires NoSweep(acts) && Run(Fresh(t), acts).Some?
    ensures Run(Fresh(t), acts).value.sweeps == [] && Run(Fresh(t), acts).value.ledger[Swept(p)] == 0
  {
    if acts == [] {
    } else {
      var init, a := acts[..|acts| - 1], acts[|acts| - 1];
      NeverSwept(t, init, p);
      var s := Run(Fresh(t), init).value;
      SweepCount(s, a);
      LedgerStep(s, a, p);
    }
  }

  lemma FreshInv(t: State)
    requires HasList(t.seed)
    ensures Inv(Fresh(t))
  {
    InitInv(t.seed, t.policyRef);
    var f, g := Init(t.seed, t.policyRef), Fresh(t);
    forall p ensures Balanced(g, p) && Marked(g, p) && Credited(g, p) && Listed(g, p) {
      assert Balanced(f, p) && Marked(f, p) && Credited(f, p) && Listed(f, p);
    }
  }

  lemma FreshOneHolder(t: State, acts: seq<Action>)
    requires HasList(t.seed) && NoSweep(acts) && Run(Fresh(t), acts).Some?
    ensures OneHolder(Run(Fresh(t), acts).value)
  {
    var s := Run(Fresh(t), acts).value;
    FreshInv(t);
    InvRun(Fresh(t), acts);
    forall p ensures Count(s.handlers, Holding(p)) <= 1 {
      NeverSwept(t, acts, p);
      assert Balanced(s, p);
    }
  }

  lemma {:induction false} LongerThan(names: set<string>) returns (p: string)
    ensures p != "" && p !in names && forall x :: x in names ==> |x| < |p|
    decreases |names|
  {
    if names == {} {
      p := "p";
    } else {
      var x :| x in names;
      var q := LongerThan(names - {x});
      p := q + x;
    }
  }

  /** `b` leads from `t` to `s` and begins no reset. */
  ghost predicate Leads(t: State, b: seq<Action>, s: State) {
    NoSweep(b) && Run(t, b) == Some(s)
  }

  lemma Lead(t: State, b: seq<Action>, s: State, a: Action, next: State)
    requires Leads(t, b, s) && Enabled(s, a) && next == Apply(s, a) && !a.SweepBegin?
    ensures Leads(t, b + [a], next)
  {
    Extend(t, b, s, a, next);
  }

  /** An event for an unmarked principal takes the mark. */
  lemma Arrive(t: State, b: seq<Action>, s: State, body: Body, p: string) returns (b1: seq<Action>, s1: State)
    requires Leads(t, b, s) && body.Decoded? && Identity.Principal(body.subject) == Some(p) && p !in s.revoked
    ensures Leads(t, b1, s1) && s1.handlers == s.handlers + [Handler(body, Held)]
    ensures s1.revoked == s.revoked + {p} && s1.sweeps == NoteStore(s.sweeps, p)
  {
    var m := Apply(s, Receive(body));
    Lead(t, b, s, Receive(body), m);
    assert m.handlers[|s.handlers|] == Handler(body, Start);
    s1 := Apply(m, Acquire(|s.handlers|));
    Lead(t, b + [Receive(body)], m, Acquire(|s.handlers|), s1);
    b1 := b + [Receive(body)] + [Acquire(|s.handlers|)];
  }

  /** A running sweep visits and deletes it. */
  lemma SweepOut(t: State, b: seq<Action>, s: State, j: nat, p: string) returns (b1: seq<Action>, s1: State)
    requires Leads(t, b, s) && j < |s.sweeps| && !s.sweeps[j].ended && s.sweeps[j].pending.None?
    requires p in s.sweeps[j].seen - s.sweeps[j].visited
    ensures Leads(t, b1, s1) && s1.handlers == s.handlers && s1.revoked == s.revoked - {p}
  {
    var m := Apply(s, SweepVisit(j, p));
    Lead(t, b, s, SweepVisit(j, p), m);
    s1 := Apply(m, SweepDelete(j));
    Lead(t, b + [SweepVisit(j, p)], m, SweepDelete(j), s1);
    b1 := b + [SweepVisit(j, p)] + [SweepDelete(j)];
  }

  /** Let a running sweep finish the deletion it is at. */
  lemma SweepOn(t: State, j: nat) returns (b: seq<Action>, s: State)
    requires t.revoked == {} && j < |t.sweeps| && !t.sweeps[j].ended
    ensures Leads(t, b, s) && s.handlers == t.handlers && s.revoked == {}
    ensures j < |s.sweeps| && !s.sweeps[j].ended && s.sweeps[j].pending.None?
  {
    b, s := [], t;
    if t.sweeps[j].pending.Some? {
      s := Apply(t, SweepDelete(j));
      Lead(t, [], t, SweepDelete(j), s);
      b := [] + [SweepDelete(j)];
    }
  }

  /** A reset call left running over an emptied process lets two handlers hold one principal: an event takes
      the mark, the sweep removes it, a second event takes it again. */
  lemma OldSweepBites(t: State, j: nat) returns (b: seq<Action>)
    requires t.revoked == {} && j < |t.sweeps| && !t.sweeps[j].ended
    ensures !KeepsOneHolder(t, b)
  {
    var b0, s0 := SweepOn(t, j);
    var p := LongerThan(s0.sweeps[j].visited);
    var body := Decoded(Identity.SCHEME + p, "", None, None, None);
    var b1, s1 := Arrive(t, b0, s0, body, p);
    var b2, s2 := SweepOut(t, b1, s1, j, p);
    var b3, s3 := Arrive(t, b2, s2, body, p);
    b := b3;
    TwoHold(s0.handlers, Handler(body, Held), p);
    TwoHolders(t, b, s3, p);
  }

  lemma TwoHolders(t: State, b: seq<Action>, s: State, p: string)
    requires Leads(t, b, s) && Count(s.handlers, Holding(p)) >= 2
    ensures !KeepsOneHolder(t, b)
  {}

  lemma TwoHold(hs: seq<Handler>, h: Handler, p: string)
    requires Holding(p)(h)
    ensures Count(hs + [h] + [h], Holding(p)) >= 2
  {
    CountSnoc(hs, h, Holding(p));
    CountSnoc(hs + [h], h, Holding(p));
  }

  /** From an emptied state, runs that begin no reset keep the fresh process's promise of one holder at a
      time exactly when no older reset is still running. */
  lemma OneHolderIff(t: State)
    requires HasList(t.seed) && Emptied(t)
    ensures (forall b :: KeepsOneHolder(t, b)) <==> AtRest(t)
  {
    if AtRest(t) {
      forall b | NoSweep(b) && Run(t, b).Some? ensures KeepsOneHolder(t, b) {
        var acts := RunIsFresh(t, b);
        UnshiftedNoSweep(acts, b, |t.handlers|, |t.sweeps|);
        FreshOneHolder(t, acts);
        OneHolderLater(t, Run(Fresh(t), acts).value, Run(t, b).value);
      }
    } else {
      var j: nat :| j < |t.sweeps| && !t.sweeps[j].ended;
      var b := OldSweepBites(t, j);
    }
  }

  lemma UnshiftedNoSweep(acts: seq<Action>, b: seq<Action>, n: nat, m: nat)
    requires b == ShiftAll(acts, n, m) && NoSweep(b)
    ensures NoSweep(acts)
  {
    forall i | 0 <= i < |acts| ensures !acts[i].SweepBegin? {
      assert b[i] == Shift(acts[i], n, m);
    }
  }

  lemma OneHolderLater(t: State, f: State, g: State)
    requires Quiescent(t) && SameHandlers(t, f, g) && OneHolder(f)
    ensures OneHolder(g)
  {
    forall p ensures Count(g.handlers, Holding(p)) <= 1 {
      CountAppend(t.handlers, f.handlers, Holding(p));
      CountZero(t.handlers, Holding(p));
    }
  }

  // ---- what a patch still out can do ------------------------------------

  /** `b` is a run of a fresh process with nothing out. */
  ghost predicate RunsFresh(t: State, b: seq<Action>) {
    exists acts :: Mirrors(t, b, Init(t.seed, t.policyRef), acts)
  }

  /** From a clean state every run is one of a fresh process with nothing out exactly when no patch is still
      out: one that is puts its principal in the policy with nobody at work and no event received. */
  lemma FreshIff(t: State)
    requires HasList(t.seed) && Clean(t)
    ensures (forall b :: Run(t, b).Some? ==> RunsFresh(t, b)) <==> t.late == multiset{}
  {
    if t.late == multiset{} {
      assert Fresh(t) == Init(t.seed, t.policyRef);
      forall b | Run(t, b).Some? ensures RunsFresh(t, b) {
        var acts := RunIsFresh(t, b);
      }
    } else {
      var p :| p in t.late;
      var s := LatePatchLands(t, p);
      forall acts ensures !Mirrors(t, [] + [LateApply(p)], Init(t.seed, t.policyRef), acts) {
        NeverLate(t, p, acts);
      }
      assert !RunsFresh(t, [] + [LateApply(p)]);
    }
  }

  lemma LatePatchLands(t: State, p: string) returns (s: State)
    requires HasList(t.policy) && p in t.late
    ensures Run(t, [] + [LateApply(p)]) == Some(s)
    ensures s.handlers == t.handlers && s.revoked == t.revoked && HasList(s.policy) && Denied(s, p)
  {
    AppendEffect(t.policy, JStr(p));
    s := Apply(t, LateApply(p));
    Extend(t, [], t, LateApply(p), s);
  }

  lemma NeverLate(t: State, p: string, acts: seq<Action>)
    ensures !Mirrors(t, [] + [LateApply(p)], Init(t.seed, t.policyRef), acts)
  {
    var b := [] + [LateApply(p)];
    if Mirrors(t, b, Init(t.seed, t.policyRef), acts) {
      assert b[0] == Shift(acts[0], |t.handlers|, |t.sweeps|);
      var init, last := Unsnoc(Init(t.seed, t.policyRef), acts);
    }
  }

  // ---- the trial reset --------------------------------------------------

  /** `reset` is a trial reset at a quiescent point of some run: a re-apply and a whole reset call, with no
      event meanwhile. */
  ghost predicate TrialReset(seed: Json, policyRef: string, s: State, reset: seq<Action>, t: State, j: nat) {
    && Reachable(s, seed, policyRef) && Quiescent(s) && Run(s, reset) == Some(t)
    && (forall i :: 0 <= i < |reset| ==> Idle(reset[i]))
    && (exists i :: 0 <= i < |reset| && reset[i].Reapply?)
    && |s.sweeps| <= j < |t.sweeps| && t.sweeps[j].ended
  }

  lemma ResetSeed(seed: Json, policyRef: string, s: State, reset: seq<Action>, t: State, j: nat)
    requires TrialReset(seed, policyRef, s, reset, t, j)
    ensures Emptied(t) && t.seed == seed && t.policyRef == policyRef
  {
    TrialResetCleans(seed, policyRef, s, reset, t, j);
    var before :| Run(Init(seed, policyRef), before) == Some(s);
    SeedFixed(Init(seed, policyRef), before);
    SeedFixed(s, reset);
  }

  /** A trial reset restores determinism, when every reset call of the run has ended by then: whatever ran
      before, every run from there is the run of a fresh process, ... */
  lemma ResetIsFresh(seed: Json, policyRef: string, s: State, reset: seq<Action>, t: State, j: nat, b: seq<Action>)
    returns (acts: seq<Action>)
    requires TrialReset(seed, policyRef, s, reset, t, j) && AtRest(t) && Run(t, b).Some?
    ensures Mirrors(t, b, Init(seed, policyRef).(late := t.late), acts)
  {
    ResetSeed(seed, policyRef, s, reset, t, j);
    acts := RunIsFresh(t, b);
  }

  /** ... and every run of a fresh process runs there. */
  lemma FreshAfterReset(seed: Json, policyRef: string, s: State, reset: seq<Action>, t: State, j: nat,
          acts: seq<Action>)
    requires TrialReset(seed, policyRef, s, reset, t, j) && AtRest(t)
    ensures var f := Run(Init(seed, policyRef).(late := t.late), acts);
            var g := Run(t, ShiftAll(acts, |t.handlers|, |t.sweeps|));
            && (f.Some? <==> g.Some?)
            && (f.Some? ==> Alike(t, f.value, g.value))
  {
    ResetSeed(seed, policyRef, s, reset, t, j);
    CleanIsFresh(t, acts);
  }

  /** The fresh process has nothing out exactly when no client of an earlier trial gave up on a patch the
      server may still apply. */
  lemma ResetFreshIff(seed: Json, policyRef: string, s: State, reset: seq<Action>, t: State, j: nat)
    requires HasList(seed) && TrialReset(seed, policyRef, s, reset, t, j) && AtRest(t)
    ensures (forall b :: Run(t, b).Some? ==> RunsFresh(t, b)) <==> t.late == multiset{}
  {
    ResetSeed(seed, policyRef, s, reset, t, j);
    FreshIff(t);
  }

  /** With one still running that promise is lost, and only then. */
  lemma ResetOneHolderIff(seed: Json, policyRef: string, s: State, reset: seq<Action>, t: State, j: nat)
    requires HasList(seed) && TrialReset(seed, policyRef, s, reset, t, j)
    ensures (forall b :: KeepsOneHolder(t, b)) <==> AtRest(t)
  {
    ResetSeed(seed, policyRef, s, reset, t, j);
    OneHolderIff(t);
  }

  /** Such resets happen: a reset call begins, and before it ends the whole trial reset runs. */
  lemma OverlappingResets(seed: Json, policyRef: string) returns (s: State, t: State)
    ensures TrialReset(seed, policyRef, s, [] + [Reapply] + [SweepBegin] + [SweepEnd(1)], t, 1)
    ensures !AtRest(t)
  {
    var s0 := Init(seed, policyRef);
    s := Apply(s0, SweepBegin);
    Extend(s0, [], s0, SweepBegin, s);
    assert Reachable(s, seed, policyRef);
    t := ResetBeside(s);
    IdleReset();
  }

  lemma IdleReset()
    ensures var reset := [] + [Reapply] + [SweepBegin] + [SweepEnd(1)];
            && (forall i :: 0 <= i < |reset| ==> Idle(reset[i]))
            && (exists i :: 0 <= i < |reset| && reset[i].Reapply?)
  {
    var reset := [] + [Reapply] + [SweepBegin] + [SweepEnd(1)];
    assert reset[0].Reapply?;
  }

  /** A whole trial reset beside one running sweep over an empty map. */
  lemma ResetBeside(s: State) returns (t: State)
    requires s.revoked == {} && |s.sweeps| == 1 && !s.sweeps[0].ended
    ensures Run(s, [] + [Reapply] + [SweepBegin] + [SweepEnd(1)]) == Some(t)
    ensures |t.sweeps| == 2 && !t.sweeps[0].ended && t.sweeps[1].ended
  {
    var s1 := Apply(s, Reapply);
    Extend(s, [], s, Reapply, s1);
    t := ResetCall(s, [] + [Reapply], s1);
  }

  lemma ResetCall(s0: State, acts: seq<Action>, s: State) returns (t: State)
    requires Run(s0, acts) == Some(s) && s.revoked == {} && |s.sweeps| == 1 && !s.sweeps[0].ended
    ensures Run(s0, acts + [SweepBegin] + [SweepEnd(1)]) == Some(t)
    ensures |t.sweeps| == 2 && !t.sweeps[0].ended && t.sweeps[1].ended
  {
    var m := Apply(s, SweepBegin);
    Extend(s0, acts, s, SweepBegin, m);
    t := Apply(m, SweepEnd(1));
    Extend(s0, acts + [SweepBegin], m, SweepEnd(1), t);
  }
}
