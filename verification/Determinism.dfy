/** With no patch failures, resets, re-applies or other writers, the concurrent protocol refines
    sequential insertion into a set: counters, dedupe set and policy depend only on which SETs came. */
module Determinism {
  import opened Common
  import opened Json
  import opened Policy
  import opened Protocol
  import opened Ledger
  import opened Accounting

  predicate Benign(a: Action) {
    !a.PatchError? && !a.Abandon? && !a.LateApply? && !a.SweepDelete? && !a.Reapply? && !a.ForeignAppend?
  }

  predicate AllBenign(acts: seq<Action>) {
    forall i :: 0 <= i < |acts| ==> Benign(acts[i])
  }

  // ---- the sequential specification -------------------------------------

  function TargetOf(b: Body): Option<string> {
    Target(Handler(b, Start))
  }

  function TargetsOf(bodies: seq<Body>): set<string> {
    set b | b in bodies && TargetOf(b).Some? :: TargetOf(b).value
  }

  predicate Good(b: Body) {
    TargetOf(b).Some?
  }

  /** Handle SETs one after another, when `marked` are known already: a new principal is revoked, a known one
      deduped, anything else fails. */
  function InsertAll(c: Counters, marked: set<string>, bodies: seq<Body>): (Counters, set<string>) {
    if bodies == [] then (c, marked)
    else
      var (d, seen) := InsertAll(c, marked, bodies[..|bodies| - 1]);
      Insert(d, seen, bodies[|bodies| - 1])
  }

  function Insert(c: Counters, seen: set<string>, b: Body): (Counters, set<string>) {
    match TargetOf(b)
    case None => (c.Bump(Failed), seen)
    case Some(p) => if p in seen then (c.Bump(Deduped), seen) else (c.Bump(Revoked), seen + {p})
  }

  lemma InsertCounts(c: Counters, seen: set<string>, b: Body)
    ensures var (d, now) := Insert(c, seen, b);
            && now == seen + (if Good(b) then {TargetOf(b).value} else {})
            && d.revoked + |seen| == c.revoked + |now|
            && d.deduped + |now| == c.deduped + |seen| + (if Good(b) then 1 else 0)
            && d.failed == c.failed + (if Good(b) then 0 else 1)
  {
    if Good(b) && TargetOf(b).value in seen {
      assert seen + {TargetOf(b).value} == seen;
    }
  }

  lemma {:induction false} InsertAllCounts(c: Counters, marked: set<string>, bodies: seq<Body>)
    ensures var (d, seen) := InsertAll(c, marked, bodies);
            && seen == marked + TargetsOf(bodies)
            && d.revoked + |marked| == c.revoked + |seen|
            && d.deduped + |seen| == c.deduped + |marked| + Count(bodies, Good)
            && d.failed + Count(bodies, Good) == c.failed + |bodies|
  {
    if bodies == [] {
      assert TargetsOf(bodies) == {};
    } else {
      var init, b := bodies[..|bodies| - 1], bodies[|bodies| - 1];
      InsertAllCounts(c, marked, init);
      assert bodies == init + [b];
      TargetsSnoc(init, b);
      CountSnoc(init, b, Good);
      InsertCounts(InsertAll(c, marked, init).0, InsertAll(c, marked, init).1, b);
    }
  }

  lemma TargetsSnoc(bodies: seq<Body>, b: Body)
    ensures TargetsOf(bodies + [b]) == TargetsOf(bodies) + if Good(b) then {TargetOf(b).value} else {}
  {}

  // ---- the invariant ----------------------------------------------------

  function Strs(order: seq<string>): seq<Json> {
    Map(order, (p: string) => JStr(p))
  }

  predicate Distinct(order: seq<string>) {
    forall i, j :: 0 <= i < j < |order| ==> order[i] != order[j]
  }

  function HeldNow(p: string): Handler -> bool {
    (h: Handler) => h.phase.Held? && Target(h) == Some(p)
  }

  /** Its patch went in. */
  predicate Winner(h: Handler) {
    h.phase.Patched? || Settled(h.phase, Revoked)
  }

  /** A marked principal was so at the start, or is in the appended order, or is held before its patch; never
      two of these, never twice. */
  predicate Ordered(s0: State, s: State, order: seq<string>, p: string) {
    Count(s.handlers, HeldNow(p)) + One(p in order) + One(p in s0.revoked) == One(p in s.revoked)
  }

  predicate NewSound(revoked: set<string>, h: Handler) {
    && !h.phase.PatchFailed?
    && match Target(h)
       case None => h.phase.Start? || Settled(h.phase, Failed)
       case Some(p) => !Settled(h.phase, Failed) && (h.phase.Start? || p in revoked)
  }

  function Arrived(s0: State, s: State): seq<Body>
    requires |s0.handlers| <= |s.handlers|
  {
    Map(s.handlers[|s0.handlers|..], (h: Handler) => h.body)
  }

  /** Where a benign run starts: nobody at work. */
  predicate Ready(s0: State) {
    Quiescent(s0) && HasList(s0.seed) && HasList(s0.policy)
  }

  predicate SameBase(s0: State, s: State) {
    |s0.handlers| <= |s.handlers| && forall i :: 0 <= i < |s0.handlers| ==> s.handlers[i] == s0.handlers[i]
  }

  predicate ListIs(s0: State, s: State, order: seq<string>)
    requires HasList(s0.policy)
  {
    HasList(s.seed) && HasList(s.policy) && ListOf(s.policy) == ListOf(s0.policy) + Strs(order)
  }

  ghost predicate DetInv(s0: State, s: State, order: seq<string>)
    requires HasList(s0.policy)
  {
    && SameBase(s0, s) && ListIs(s0, s, order)
    && Distinct(order)
    && (forall p :: Ordered(s0, s, order, p))
    && Count(s.handlers, Winner) == Count(s0.handlers, Winner) + |order|
    && (forall i :: |s0.handlers| <= i < |s.handlers| ==> NewSound(s.revoked, s.handlers[i]))
    && s.revoked <= s0.revoked + TargetsOf(Arrived(s0, s))
  }

  function NextOrder(s: State, a: Action, order: seq<string>): seq<string>
    requires Enabled(s, a)
  {
    if a.ServerApplies? then order + [Target(s.handlers[a.i]).value] else order
  }

  // ---- one step ---------------------------------------------------------

  lemma MoverIsNew(s0: State, s: State, a: Action)
    requires Quiescent(s0) && SameBase(s0, s) && Enabled(s, a) && Mover(a).Some?
    ensures Mover(a).value >= |s0.handlers|
  {
    assert forall k :: 0 <= k < |s0.handlers| ==> s.handlers[k].phase.Done?;
    assert !s.handlers[Mover(a).value].phase.Done?;
  }

  lemma BaseStep(s0: State, s: State, a: Action)
    requires Quiescent(s0) && SameBase(s0, s) && Enabled(s, a)
    ensures SameBase(s0, Apply(s, a))
    ensures Arrived(s0, Apply(s, a)) == Arrived(s0, s) + if a.Receive? then [a.body] else []
  {
    CountStep(s, a, Winner);
    if Mover(a).Some? {
      MoverIsNew(s0, s, a);
    }
    BaseKept(s0, s, Apply(s, a), if a.Receive? then [a.body] else []);
  }

  /** Only the later handlers differ, in more than their phase only where a new one came. */
  lemma BaseKept(s0: State, s: State, t: State, bodies: seq<Body>)
    requires SameBase(s0, s) && |t.handlers| == |s.handlers| + |bodies|
    requires forall i :: 0 <= i < |s0.handlers| ==> t.handlers[i] == s.handlers[i]
    requires forall i :: 0 <= i < |s.handlers| ==> t.handlers[i].body == s.handlers[i].body
    requires forall i :: 0 <= i < |bodies| ==> t.handlers[|s.handlers| + i].body == bodies[i]
    ensures SameBase(s0, t) && Arrived(s0, t) == Arrived(s0, s) + bodies
  {
    var n := |s0.handlers|;
    forall k | 0 <= k < |Arrived(s0, t)| ensures Arrived(s0, t)[k] == (Arrived(s0, s) + bodies)[k] {
      assert Arrived(s0, t)[k] == t.handlers[n + k].body;
      if k >= |s.handlers| - n {
        assert t.handlers[|s.handlers| + (k - (|s.handlers| - n))].body == bodies[k - (|s.handlers| - n)];
      }
    }
  }

  lemma ListStep(s0: State, s: State, a: Action, order: seq<string>)
    requires HasList(s0.policy) && ListIs(s0, s, order) && Enabled(s, a) && Benign(a)
    ensures ListIs(s0, Apply(s, a), NextOrder(s, a, order))
  {
    PolicyStep(s, a);
    if a.ServerApplies? {
      var p := Target(s.handlers[a.i]).value;
      assert Strs(order + [p]) == Strs(order) + [JStr(p)];
      assert ListOf(s0.policy) + Strs(order) + [JStr(p)] == ListOf(s0.policy) + (Strs(order) + [JStr(p)]);
    }
  }

  lemma HeldStep(s: State, a: Action, p: string)
    requires Enabled(s, a) && Benign(a)
    ensures Count(Apply(s, a).handlers, HeldNow(p))
         == Count(s.handlers, HeldNow(p)) + One(Takes(s, a, p))
            - One(a.ServerApplies? && Target(s.handlers[a.i]) == Some(p))
  {
    CountStep(s, a, HeldNow(p));
  }

  lemma WinnerStep(s: State, a: Action)
    requires Enabled(s, a)
    ensures Count(Apply(s, a).handlers, Winner) + One(a.PatchError? && s.handlers[a.i].phase.Patched?)
         == Count(s.handlers, Winner) + One(a.ServerApplies?)
  {
    CountStep(s, a, Winner);
    if Mover(a).Some? {
      WinnerPhase(s, a);
    }
  }

  lemma WinnerPhase(s: State, a: Action)
    requires Enabled(s, a) && Mover(a).Some?
    ensures var i := Mover(a).value;
            One(Winner(Apply(s, a).handlers[i])) + One(a.PatchError? && s.handlers[i].phase.Patched?) ==
            One(Winner(s.handlers[i])) + One(a.ServerApplies?)
  {
    NextPhaseIs(s, a, Mover(a).value);
  }

  lemma OrderedStep(s0: State, s: State, a: Action, order: seq<string>, p: string)
    requires Enabled(s, a) && Benign(a) && !a.Rollback?
    requires Ordered(s0, s, order, p)
    ensures Ordered(s0, Apply(s, a), NextOrder(s, a, order), p)
    ensures a.ServerApplies? && Target(s.handlers[a.i]) == Some(p) ==> p !in order
    ensures p in Apply(s, a).revoked <==> p in s.revoked || Takes(s, a, p)
  {
    HeldStep(s, a, p);
    MarkStep(s, a, p);
    if a.ServerApplies? && Target(s.handlers[a.i]) == Some(p) {
      assert HeldNow(p)(s.handlers[a.i]);
      CountZero(s.handlers, HeldNow(p));
    }
  }

  lemma NoRollback(s0: State, s: State, a: Action, order: seq<string>)
    requires Ready(s0) && DetInv(s0, s, order) && Enabled(s, a)
    ensures !a.Rollback?
  {
    if a.Rollback? {
      MoverIsNew(s0, s, a);
    }
  }

  lemma NewSoundStep(s: State, a: Action)
    requires Enabled(s, a) && Benign(a) && !a.Rollback?
    ensures s.revoked <= Apply(s, a).revoked
    ensures Mover(a).Some? && NewSound(s.revoked, s.handlers[Mover(a).value])
        ==> NewSound(Apply(s, a).revoked, Apply(s, a).handlers[Mover(a).value])
    ensures a.Receive? ==> NewSound(Apply(s, a).revoked, Apply(s, a).handlers[|s.handlers|])
  {
    NextMarksIs(s, a);
    if Mover(a).Some? {
      NextPhaseIs(s, a, Mover(a).value);
    }
  }

  lemma DetStep(s0: State, s: State, a: Action, order: seq<string>)
    requires Ready(s0) && DetInv(s0, s, order) && Enabled(s, a) && Benign(a)
    ensures DetInv(s0, Apply(s, a), NextOrder(s, a, order))
  {
    NoRollback(s0, s, a, order);
    BaseStep(s0, s, a);
    ListStep(s0, s, a, order);
    WinnerStep(s, a);
    OrdersStep(s0, s, a, order);
    HandlersStep(s0, s, a, order);
    MarksStep(s0, s, a, order);
  }

  lemma OrdersStep(s0: State, s: State, a: Action, order: seq<string>)
    requires Enabled(s, a) && Benign(a) && !a.Rollback? && Distinct(order) && forall p :: Ordered(s0, s, order, p)
    ensures Distinct(NextOrder(s, a, order)) && forall p :: Ordered(s0, Apply(s, a), NextOrder(s, a, order), p)
  {
    forall p ensures Ordered(s0, Apply(s, a), NextOrder(s, a, order), p) {
      OrderedStep(s0, s, a, order, p);
    }
    if a.ServerApplies? {
      OrderedStep(s0, s, a, order, Target(s.handlers[a.i]).value);
    }
  }

  lemma HandlersStep(s0: State, s: State, a: Action, order: seq<string>)
    requires Ready(s0) && DetInv(s0, s, order) && Enabled(s, a) && Benign(a) && !a.Rollback?
    ensures forall i :: |s0.handlers| <= i < |Apply(s, a).handlers| ==>
              NewSound(Apply(s, a).revoked, Apply(s, a).handlers[i])
  {
    NewSoundStep(s, a);
    CountStep(s, a, Winner);
    if Mover(a).Some? {
      MoverIsNew(s0, s, a);
    }
    var t := Apply(s, a);
    forall i | |s0.handlers| <= i < |t.handlers| ensures NewSound(t.revoked, t.handlers[i]) {
      if i < |s.handlers| {
        assert NewSound(s.revoked, s.handlers[i]);
      }
    }
  }

  lemma MarksStep(s0: State, s: State, a: Action, order: seq<string>)
    requires Ready(s0) && DetInv(s0, s, order) && Enabled(s, a) && Benign(a) && !a.Rollback?
    ensures SameBase(s0, Apply(s, a)) && Apply(s, a).revoked <= s0.revoked + TargetsOf(Arrived(s0, Apply(s, a)))
  {
    BaseStep(s0, s, a);
    var n, b0, b1 := |s0.handlers|, Arrived(s0, s), Arrived(s0, Apply(s, a));
    assert b0 <= b1;
    forall p | p in Apply(s, a).revoked ensures p in s0.revoked + TargetsOf(b1) {
      OrderedStep(s0, s, a, order, p);
      if p in s0.revoked {
      } else if p in s.revoked {
        var b :| b in b0 && TargetOf(b) == Some(p);
        assert b in b1;
      } else {
        MoverIsNew(s0, s, a);
        assert b0[a.i - n] == s.handlers[a.i].body;
        assert b1[a.i - n] in b1;
      }
    }
  }

  // ---- whole runs -------------------------------------------------------

  lemma DetStart(s0: State)
    requires Ready(s0)
    ensures DetInv(s0, s0, [])
  {
    forall p ensures Ordered(s0, s0, [], p) {
      CountZero(s0.handlers, HeldNow(p));
    }
    assert ListOf(s0.policy) + [] == ListOf(s0.policy);
  }

  lemma {:induction false} DetRun(s0: State, acts: seq<Action>) returns (order: seq<string>)
    requires Ready(s0) && AllBenign(acts) && Run(s0, acts).Some?
    ensures DetInv(s0, Run(s0, acts).value, order)
  {
    if acts == [] {
      order := [];
      DetStart(s0);
    } else {
      var init, a := acts[..|acts| - 1], acts[|acts| - 1];
      order := DetRun(s0, init);
      var s := Run(s0, init).value;
      DetStep(s0, s, a, order);
      order := NextOrder(s, a, order);
    }
  }

  lemma {:induction false} FailuresAreBad(revoked: set<string>, hs: seq<Handler>)
    requires forall h :: h in hs ==> h.phase.Done? && NewSound(revoked, h)
    ensures Count(hs, IsAccounted(Failed)) + Count(Map(hs, (h: Handler) => h.body), Good) == |hs|
  {
    if hs == [] {
    } else {
      var init, h := hs[..|hs| - 1], hs[|hs| - 1];
      FailuresAreBad(revoked, init);
      var bodies := Map(hs, (h: Handler) => h.body);
      assert bodies[..|hs| - 1] == Map(init, (h: Handler) => h.body);
      assert h in hs && IsAccounted(Failed)(h) <==> !Good(h.body);
    }
  }

  lemma MarksAreTargets(s0: State, s: State, order: seq<string>)
    requires Ready(s0) && DetInv(s0, s, order) && Quiescent(s)
    ensures s.revoked == s0.revoked + TargetsOf(Arrived(s0, s)) && |order| + |s0.revoked| == |s.revoked|
    ensures forall p :: p in order <==> p in TargetsOf(Arrived(s0, s)) - s0.revoked
  {
    forall p | p in TargetsOf(Arrived(s0, s)) ensures p in s.revoked {
      var b :| b in Arrived(s0, s) && TargetOf(b) == Some(p);
      var i :| 0 <= i < |Arrived(s0, s)| && Arrived(s0, s)[i] == b;
      assert NewSound(s.revoked, s.handlers[|s0.handlers| + i]);
    }
    forall p ensures p in order <==> p in s.revoked - s0.revoked {
      CountZero(s.handlers, HeldNow(p));
      assert Ordered(s0, s, order, p);
    }
    forall p ensures p in s0.revoked ==> p in s.revoked {
      assert Ordered(s0, s, order, p);
    }
    DistinctSize(order, s.revoked - s0.revoked);
    assert s.revoked == s0.revoked + (s.revoked - s0.revoked);
  }

  lemma WinnersAreRevoked(hs: seq<Handler>)
    requires forall h :: h in hs ==> h.phase.Done?
    ensures Count(hs, Winner) == Count(hs, IsAccounted(Revoked))
  {
    CountSame(hs, Winner, IsAccounted(Revoked));
  }

  function Late(s0: State, s: State): seq<Handler>
    requires |s0.handlers| <= |s.handlers|
  {
    s.handlers[|s0.handlers|..]
  }

  lemma LateCount(s0: State, s: State, keep: Handler -> bool)
    requires SameBase(s0, s)
    ensures Count(s.handlers, keep) == Count(s0.handlers, keep) + Count(Late(s0, s), keep)
  {
    assert s.handlers == s0.handlers + Late(s0, s);
    CountAppend(s0.handlers, Late(s0, s), keep);
  }

  lemma LateSound(s0: State, s: State, order: seq<string>, h: Handler)
    requires HasList(s0.policy) && DetInv(s0, s, order) && Quiescent(s) && h in Late(s0, s)
    ensures h.phase.Done? && NewSound(s.revoked, h)
  {
    var i :| 0 <= i < |Late(s0, s)| && Late(s0, s)[i] == h;
    assert NewSound(s.revoked, s.handlers[|s0.handlers| + i]);
  }

  lemma CounterDelta(s0: State, acts: seq<Action>, s: State, o: Outcome)
    requires Formed(s0) && Run(s0, acts) == Some(s) && SameBase(s0, s)
    ensures s.counts.Of(o) == s0.counts.Of(o) + Count(Late(s0, s), IsAccounted(o))
  {
    AccountingRun(s0, acts, o);
    LateCount(s0, s, IsAccounted(o));
  }

  lemma CountsAre(s0: State, acts: seq<Action>, s: State, order: seq<string>)
    requires Ready(s0) && Formed(s0) && Run(s0, acts) == Some(s) && Quiescent(s) && DetInv(s0, s, order)
    ensures var bodies := Arrived(s0, s);
            && s.counts.revoked == s0.counts.revoked + |order|
            && s.counts.failed + Count(bodies, Good) == s0.counts.failed + |bodies|
            && s.counts.deduped + |order| == s0.counts.deduped + Count(bodies, Good)
  {
    var late := Late(s0, s);
    forall h | h in late ensures h.phase.Done? && NewSound(s.revoked, h) {
      LateSound(s0, s, order, h);
    }
    CounterDelta(s0, acts, s, Revoked);
    CounterDelta(s0, acts, s, Deduped);
    CounterDelta(s0, acts, s, Failed);
    LateCount(s0, s, Winner);
    WinnersAreRevoked(late);
    AccountedTotal(late);
    FailuresAreBad(s.revoked, late);
    OfAll(s0.counts);
    OfAll(s.counts);
  }

  lemma OfAll(c: Counters)
    ensures c.Of(Revoked) == c.revoked && c.Of(Deduped) == c.deduped && c.Of(Failed) == c.failed
  {}

  // ---- results ----------------------------------------------------------

  /** Every benign interleaving, from any quiescent state, ends, once all handlers are done, with the counters
      and the dedupe set of handling its SETs one after another; and the policy list is the one it started
      with followed by each principal that was not marked before once, in some order. */
  lemma RefinesSequential(s0: State, acts: seq<Action>, s: State) returns (order: seq<string>)
    requires Ready(s0) && Formed(s0) && AllBenign(acts) && Run(s0, acts) == Some(s) && Quiescent(s)
    ensures SameBase(s0, s) && (s.counts, s.revoked) == InsertAll(s0.counts, s0.revoked, Arrived(s0, s))
    ensures ListIs(s0, s, order) && Distinct(order)
    ensures forall p :: p in order <==> p in TargetsOf(Arrived(s0, s)) - s0.revoked
  {
    order := DetRun(s0, acts);
    MarksAreTargets(s0, s, order);
    CountsAre(s0, acts, s, order);
    SequentialIs(s0.counts, s0.revoked, Arrived(s0, s), s.counts);
  }

  /** The three equations determine the sequential outcome. */
  lemma SequentialIs(c: Counters, marked: set<string>, bodies: seq<Body>, d: Counters)
    requires d.revoked + |marked| == c.revoked + |marked + TargetsOf(bodies)|
    requires d.failed + Count(bodies, Good) == c.failed + |bodies|
    requires d.deduped + |marked + TargetsOf(bodies)| == c.deduped + |marked| + Count(bodies, Good)
    ensures InsertAll(c, marked, bodies) == (d, marked + TargetsOf(bodies))
  {
    InsertAllCounts(c, marked, bodies);
    Totals(InsertAll(c, marked, bodies), d, marked + TargetsOf(bodies));
  }

  lemma Totals(r: (Counters, set<string>), d: Counters, seen: set<string>)
    requires r.1 == seen && r.0.revoked == d.revoked && r.0.deduped == d.deduped && r.0.failed == d.failed
    ensures r == (d, seen)
  {}

  lemma RemoveAt<T>(ys: seq<T>, k: nat, keep: T -> bool)
    requires k < |ys|
    ensures multiset(ys[..k] + ys[k + 1..]) == multiset(ys) - multiset{ys[k]}
    ensures Count(ys, keep) == Count(ys[..k] + ys[k + 1..], keep) + One(keep(ys[k]))
  {
    CutAt(ys, k);
    DropBag(ys[..k], ys[k], ys[k + 1..]);
    DropCount(ys[..k], ys[k], ys[k + 1..], keep);
  }

  lemma CutAt<T>(ys: seq<T>, k: nat)
    requires k < |ys|
    ensures ys == ys[..k] + [ys[k]] + ys[k + 1..]
  {}

  lemma DropBag<T>(a: seq<T>, y: T, b: seq<T>)
    ensures multiset(a + b) == multiset(a + [y] + b) - multiset{y}
  {
    assert multiset(a + [y] + b) == multiset(a) + multiset{y} + multiset(b);
  }

  lemma DropCount<T>(a: seq<T>, y: T, b: seq<T>, keep: T -> bool)
    ensures Count(a + [y] + b, keep) == Count(a + b, keep) + One(keep(y))
  {
    CountAppend(a, b, keep);
    CountAppend(a + [y], b, keep);
    CountSnoc(a, y, keep);
  }

  lemma {:induction false} CountPermutation<T>(xs: seq<T>, ys: seq<T>, keep: T -> bool)
    requires multiset(xs) == multiset(ys)
    ensures Count(xs, keep) == Count(ys, keep)
  {
    if xs == [] {
      assert |multiset(ys)| == 0;
    } else {
      var n := |xs| - 1;
      assert xs[n] in multiset(ys);
      var k :| 0 <= k < |ys| && ys[k] == xs[n];
      RemoveAt(xs, n, keep);
      RemoveAt(ys, k, keep);
      assert xs[..n] + xs[n + 1..] == xs[..n];
      CountPermutation(xs[..n], ys[..k] + ys[k + 1..], keep);
    }
  }

  /** Two benign runs that received the same SETs, in any arrival order and under any interleaving, end
      with the same counters, the same dedupe set, and the same policy up to the order of the list. */
  lemma InterleavingsAgree(s0: State, a1: seq<Action>, s1: State, a2: seq<Action>, s2: State)
    requires Ready(s0) && Formed(s0)
    requires AllBenign(a1) && Run(s0, a1) == Some(s1) && Quiescent(s1)
    requires AllBenign(a2) && Run(s0, a2) == Some(s2) && Quiescent(s2)
    requires SameBase(s0, s1) && SameBase(s0, s2) && multiset(Arrived(s0, s1)) == multiset(Arrived(s0, s2))
    ensures s1.counts == s2.counts && s1.revoked == s2.revoked
    ensures HasList(s1.policy) && HasList(s2.policy) && multiset(ListOf(s1.policy)) == multiset(ListOf(s2.policy))
  {
    var o1 := RefinesSequential(s0, a1, s1);
    var o2 := RefinesSequential(s0, a2, s2);
    OrderIrrelevant(s0.counts, s0.revoked, Arrived(s0, s1), Arrived(s0, s2));
    SameTargets(Arrived(s0, s1), Arrived(s0, s2));
    SameNames(o1, o2);
    assert multiset(ListOf(s1.policy)) == multiset(ListOf(s0.policy)) + multiset(Strs(o1));
    assert multiset(ListOf(s2.policy)) == multiset(ListOf(s0.policy)) + multiset(Strs(o2));
  }

  lemma SameNames(o1: seq<string>, o2: seq<string>)
    requires Distinct(o1) && Distinct(o2) && forall p :: p in o1 <==> p in o2
    ensures multiset(Strs(o1)) == multiset(Strs(o2))
  {
    forall v ensures multiset(Strs(o1))[v] == multiset(Strs(o2))[v] {
      Occurrences(o1, v);
      Occurrences(o2, v);
    }
  }

  lemma {:induction false} Occurrences(order: seq<string>, v: Json)
    requires Distinct(order)
    ensures multiset(Strs(order))[v] == One(v.JStr? && v.s in order)
  {
    if order == [] {
    } else {
      var init, last := order[..|order| - 1], order[|order| - 1];
      Occurrences(init, v);
      MapSnoc(init, last, (p: string) => JStr(p));
      assert order == init + [last] && Strs(order) == Strs(init) + [JStr(last)];
    }
  }

  lemma OrderIrrelevant(c: Counters, marked: set<string>, b1: seq<Body>, b2: seq<Body>)
    requires multiset(b1) == multiset(b2)
    ensures InsertAll(c, marked, b1) == InsertAll(c, marked, b2)
  {
    SameTargets(b1, b2);
    CountPermutation(b1, b2, Good);
    assert |multiset(b1)| == |b1| && |multiset(b2)| == |b2|;
    InsertAllCounts(c, marked, b1);
    SequentialIs(c, marked, b2, InsertAll(c, marked, b1).0);
  }

  lemma SameTargets(b1: seq<Body>, b2: seq<Body>)
    requires multiset(b1) == multiset(b2)
    ensures TargetsOf(b1) == TargetsOf(b2)
  {
    assert forall b :: b in b1 <==> b in multiset(b1);
    assert forall b :: b in b2 <==> b in multiset(b2);
  }
}
