/** The actuator as a transition system. Any number of event handlers and reset calls run at
    once; each takes the atomic steps of its code one at a time, in any interleaving, beside
    an operator who re-applies the manifest and other writers of the policy. */
module Protocol {
  import opened Common
  import opened Json
  import opened Identity
  import opened Policy
  import opened Logfmt
  import opened Rfc3339
  import opened Spans

  /** The `result` label of zta_revocation_events_total. */
  datatype Outcome = Revoked | Deduped | Failed

  /** The handler's own clocks: T4 at entry, T5 and T6 around the mesh call. */
  datatype Marks = Marks(t4: int, t5: int, t6: int)

  /** Where a handler is: before LoadOrStore; holding a fresh mark with its patch on the way; patch
      applied by the API server with the answer on the way; patch errored with the mark not yet
      rolled back; `revokeInMesh` returned; counter bumped; histograms fed from these clocks; outcome
      line logged. */
  datatype Phase =
    | Start
    | Held
    | Patched
    | PatchFailed
    | Returned(o: Outcome)
    | Counted(o: Outcome)
    | Observed(o: Outcome, own: Marks)
    | Done(o: Outcome)

  /** A request body: not a SET, or the SET's subject, jti and upstream clocks. */
  datatype Body = Garbled | Decoded(subject: string, jti: string, t0: Clock, t1: Clock, t3: Clock)

  datatype Handler = Handler(body: Body, phase: Phase)

  /** One run of the reset handler's Range loop. `must`: keys present since it began; `seen`: keys
      present at some time since; `stored`: keys stored since. Range visits no key twice, may visit
      any seen key, and cannot end before every `must` key was visited. */
  datatype Sweep = Sweep(
    must: set<string>, seen: set<string>, stored: set<string>, visited: set<string>,
    pending: Option<string>, cleared: nat, ended: bool)

  datatype Counters = Counters(revoked: nat, deduped: nat, failed: nat) {
    function Of(o: Outcome): nat {
      match o case Revoked => revoked case Deduped => deduped case Failed => failed
    }

    function Bump(o: Outcome): Counters {
      match o
      case Revoked => this.(revoked := revoked + 1)
      case Deduped => this.(deduped := deduped + 1)
      case Failed => this.(failed := failed + 1)
    }
  }

  /** Ledger of what happened so far: calls that returned success; patches that were applied yet
      answered with an error, before the client gave up on them or after; appends by other writers;
      marks a reset removed; rollbacks that found their mark already gone; manifest re-applies. */
  datatype Entry =
    | Succeeded(p: string)
    | Ambiguous(p: string)
    | Foreign(v: Json)
    | Swept(p: string)
    | Missed(p: string)
    | Reapplied

  /** `late`: patches whose client gave up, say on a cancelled request, and which the server may still apply. */
  datatype State = State(
    seed: Json, policyRef: string,
    revoked: set<string>, policy: Json,
    handlers: seq<Handler>, sweeps: seq<Sweep>,
    counts: Counters, stages: seq<(string, int)>, pipeline: seq<(string, int)>, log: seq<Pairs>,
    ledger: multiset<Entry>, late: multiset<string>)

  /** What a handler's last line carries beside its event: log stamp, T4, T5, T6, and the error text. */
  datatype Reading = Reading(time: int, t4: int, t5: int, t6: int, error: string) {
    function Own(): Marks {
      Marks(t4, t5, t6)
    }
  }

  datatype Action =
    | Receive(body: Body)
    | Reject(i: nat)
    | Acquire(i: nat)
    | ServerApplies(i: nat)
    | PatchOk(i: nat)
    | PatchError(i: nat)
    | Abandon(i: nat)
    | Rollback(i: nat)
    | Bump(i: nat)
    | Observe(i: nat, own: Marks)
    | Report(i: nat, reading: Reading)
    | Noise(line: Pairs)
    | SweepBegin
    | SweepVisit(j: nat, key: string)
    | SweepDelete(j: nat)
    | SweepEnd(j: nat)
    | Reapply
    | ForeignAppend(v: Json)
    | LateApply(p: string)

  function Init(seed: Json, policyRef: string): State {
    State(seed, policyRef, {}, seed, [], [], Counters(0, 0, 0), [], [], [], multiset{}, multiset{})
  }

  /** The principal a handler acts on. */
  function Target(h: Handler): Option<string> {
    if h.body.Decoded? then Principal(h.body.subject) else None
  }

  // ---- log lines --------------------------------------------------------

  const ACTUATED := "Revocation actuated in mesh"
  const SKIPPED := "Subject already revoked, mesh patch skipped"
  const NOT_ACTUATED := "Failed to actuate revocation in mesh"
  const NOT_DECODED := "Failed to decode SET"

  function ResultText(o: Outcome): string {
    match o case Revoked => "revoked" case Deduped => "deduped" case Failed => "failed"
  }

  function ClocksOf(body: Body, own: Marks): Clocks
    requires body.Decoded?
  {
    Clocks(body.t0, body.t1, body.t3, Some(own.t4), Some(own.t5), Some(own.t6))
  }

  /** The spans handed to the histograms: those of an event that actuated. */
  function Actuated(body: Body, o: Outcome, own: Marks): seq<Span> {
    if body.Decoded? && o.Revoked? then SpanTable(ClocksOf(body, own)) else []
  }

  function Stamped(r: Reading, level: string, msg: string): Pairs
    requires InRange(r.time)
  {
    [("time", Format(r.time)), ("level", level), ("msg", msg)]
  }

  /** The line a handler logs for its outcome. */
  function OutcomeLine(policyRef: string, body: Body, o: Outcome, r: Reading): Pairs
    requires InRange(r.time)
  {
    match body
    case Garbled => Stamped(r, "ERROR", NOT_DECODED) + [("error", r.error)]
    case Decoded(subject, jti, _, _, _) =>
      if o.Failed? then
        Stamped(r, "ERROR", NOT_ACTUATED) + [("error", r.error), ("subject", subject), ("jti", jti)]
      else
        Stamped(r, "INFO", if o.Revoked? then ACTUATED else SKIPPED)
        + [("jti", jti), ("subject", subject), ("policy", policyRef), ("result", ResultText(o))]
        + Attrs(ClocksOf(body, r.Own()))
  }

  /** Attribute keys are literals of printable ASCII in the source. */
  predicate AsciiKeys(line: Pairs) {
    forall i :: 0 <= i < |line| ==> forall j :: 0 <= j < |line[i].0| ==> ' ' <= line[i].0[j] <= '~'
  }

  /** Which outcome a line reports, if any: its `result`, or one of the two failure messages. */
  function Says(line: Pairs): Option<Outcome> {
    match Lookup(line, "result")
    case Some(r) =>
      if r == "revoked" then Some(Revoked) else if r == "deduped" then Some(Deduped) else Some(Failed)
    case None =>
      var msg := Lookup(line, "msg");
      if msg == Some(NOT_ACTUATED) || msg == Some(NOT_DECODED) then Some(Failed) else None
  }

  // ---- steps ------------------------------------------------------------

  /** The handler an action moves. */
  function Mover(a: Action): Option<nat> {
    match a
    case Reject(i) => Some(i)
    case Acquire(i) => Some(i)
    case ServerApplies(i) => Some(i)
    case PatchOk(i) => Some(i)
    case PatchError(i) => Some(i)
    case Abandon(i) => Some(i)
    case Rollback(i) => Some(i)
    case Bump(i) => Some(i)
    case Observe(i, _) => Some(i)
    case Report(i, _) => Some(i)
    case _ => None
  }

  predicate SweepReady(s: State, j: nat) {
    j < |s.sweeps| && !s.sweeps[j].ended
  }

  predicate Enabled(s: State, a: Action) {
    && (Mover(a).Some? ==> Mover(a).value < |s.handlers|)
    && match a
      case Receive(_) => true
      case Reject(i) => s.handlers[i].phase.Start? && Target(s.handlers[i]).None?
      case Acquire(i) => s.handlers[i].phase.Start? && Target(s.handlers[i]).Some?
      case ServerApplies(i) => s.handlers[i].phase.Held? && Target(s.handlers[i]).Some?
                               && Append(s.policy, JStr(Target(s.handlers[i]).value)).Some?
      case PatchOk(i) => s.handlers[i].phase.Patched? && Target(s.handlers[i]).Some?
      case PatchError(i) => (s.handlers[i].phase.Held? || s.handlers[i].phase.Patched?) && Target(s.handlers[i]).Some?
      case Abandon(i) => s.handlers[i].phase.Held? && Target(s.handlers[i]).Some?
      case Rollback(i) => s.handlers[i].phase.PatchFailed? && Target(s.handlers[i]).Some?
      case Bump(i) => s.handlers[i].phase.Returned?
      case Observe(i, _) => s.handlers[i].phase.Counted?
      case Report(i, r) => s.handlers[i].phase.Observed? && s.handlers[i].phase.own == r.Own() && InRange(r.time)
      case Noise(line) => line != [] && AsciiKeys(line) && Lookup(line, "result").None? && Says(line).None?
      case SweepBegin => true
      case SweepVisit(j, k) => SweepReady(s, j) && s.sweeps[j].pending.None?
          && k in s.sweeps[j].seen - s.sweeps[j].visited
      case SweepDelete(j) => SweepReady(s, j) && s.sweeps[j].pending.Some?
      case SweepEnd(j) => SweepReady(s, j) && s.sweeps[j].pending.None? && s.sweeps[j].must <= s.sweeps[j].visited
      case Reapply => true
      case ForeignAppend(v) => Append(s.policy, v).Some?
      case LateApply(p) => p in s.late && Append(s.policy, JStr(p)).Some?
  }

  function Move(s: State, i: nat, phase: Phase): State
    requires i < |s.handlers|
  {
    s.(handlers := s.handlers[i := s.handlers[i].(phase := phase)])
  }

  function NoteStore(sweeps: seq<Sweep>, p: string): seq<Sweep> {
    Map(sweeps, (w: Sweep) => w.(seen := w.seen + {p}, stored := w.stored + {p}))
  }

  function NoteDelete(sweeps: seq<Sweep>, p: string): seq<Sweep> {
    Map(sweeps, (w: Sweep) => w.(must := w.must - {p}))
  }

  function Book(s: State, e: Entry): State {
    s.(ledger := s.ledger + multiset{e})
  }

  /** sync.Map.Delete, booked as `e` when the key's presence equals `when`. */
  function Delete(s: State, p: string, e: Entry, when: bool): State {
    (if (p in s.revoked) == when then Book(s, e) else s)
      .(revoked := s.revoked - {p}, sweeps := NoteDelete(s.sweeps, p))
  }

  predicate Sampled(body: Body, o: Outcome) {
    body.Decoded? && o.Revoked? && body.t0.Some?
  }

  function Apply(s: State, a: Action): State
    requires Enabled(s, a)
  {
    match a
    case Receive(body) =>
      s.(handlers := s.handlers + [Handler(body, if body.Garbled? then Returned(Failed) else Start)])
    case Reject(i) => Move(s, i, Returned(Failed))
    case Acquire(i) =>
      var p := Target(s.handlers[i]).value;
      if p in s.revoked then Move(s, i, Returned(Deduped))
      else Move(s.(revoked := s.revoked + {p}, sweeps := NoteStore(s.sweeps, p)), i, Held)
    case ServerApplies(i) =>
      Move(s.(policy := Append(s.policy, JStr(Target(s.handlers[i]).value)).value), i, Patched)
    case PatchOk(i) =>
      Move(Book(s, Succeeded(Target(s.handlers[i]).value)), i, Returned(Revoked))
    case PatchError(i) =>
      Move(if s.handlers[i].phase.Patched? then Book(s, Ambiguous(Target(s.handlers[i]).value)) else s, i, PatchFailed)
    case Abandon(i) => Move(s.(late := s.late + multiset{Target(s.handlers[i]).value}), i, PatchFailed)
    case Rollback(i) =>
      var p := Target(s.handlers[i]).value;
      Move(Delete(s, p, Missed(p), false), i, Returned(Failed))
    case Bump(i) =>
      var o := s.handlers[i].phase.o;
      Move(s.(counts := s.counts.Bump(o)), i, Counted(o))
    case Observe(i, own) =>
      var o := s.handlers[i].phase.o;
      var spans := Actuated(s.handlers[i].body, o, own);
      Move(s.(stages := s.stages + Samples(spans, false), pipeline := s.pipeline + Samples(spans, true)), i,
          Observed(o, own))
    case Report(i, r) =>
      var o := s.handlers[i].phase.o;
      Move(s.(log := s.log + [OutcomeLine(s.policyRef, s.handlers[i].body, o, r)]), i, Done(o))
    case Noise(line) => s.(log := s.log + [line])
    case SweepBegin =>
      s.(sweeps := s.sweeps + [Sweep(s.revoked, s.revoked, {}, {}, None, 0, false)])
    case SweepVisit(j, k) =>
      var w := s.sweeps[j];
      s.(sweeps := s.sweeps[j := w.(visited := w.visited + {k}, pending := Some(k))])
    case SweepDelete(j) =>
      var w := s.sweeps[j];
      var p := w.pending.value;
      Delete(s.(sweeps := s.sweeps[j := w.(pending := None, cleared := w.cleared + 1)]), p, Swept(p), true)
    case SweepEnd(j) => s.(sweeps := s.sweeps[j := s.sweeps[j].(ended := true)])
    case Reapply => Book(s.(policy := s.seed), Reapplied)
    case ForeignAppend(v) => Book(s.(policy := Append(s.policy, v).value), Foreign(v))
    case LateApply(p) =>
      Book(s.(policy := Append(s.policy, JStr(p)).value, late := s.late - multiset{p}), Ambiguous(p))
  }

  /** The state after a schedule, if every step of it was enabled. */
  function Run(s: State, acts: seq<Action>): Option<State> {
    if acts == [] then Some(s)
    else match Run(s, acts[..|acts| - 1])
      case None => None
      case Some(m) => if Enabled(m, acts[|acts| - 1]) then Some(Apply(m, acts[|acts| - 1])) else None
  }

  ghost predicate Reachable(s: State, seed: Json, policyRef: string) {
    exists acts :: Run(Init(seed, policyRef), acts) == Some(s)
  }

  /** Every handler has logged its outcome. */
  predicate Quiescent(s: State) {
    forall i :: 0 <= i < |s.handlers| ==> s.handlers[i].phase.Done?
  }

  lemma {:induction false} RunAppend(s: State, a: seq<Action>, b: seq<Action>)
    ensures Run(s, a + b) == match Run(s, a) case None => None case Some(m) => Run(m, b)
  {
    if b == [] {
      assert a + b == a;
    } else {
      assert (a + b)[..|a + b| - 1] == a + b[..|b| - 1];
      RunAppend(s, a, b[..|b| - 1]);
    }
  }
}
