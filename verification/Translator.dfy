/** cmd/translator/main.go: which Tetragon events become SETs, and, end to end, which principals they
    leave denied in the mesh. */
module Translator {
  import opened Common
  import opened Text
  import opened Identity
  import opened Spans
  import opened Protocol
  import opened Accounting
  import opened Determinism
  import Policy

  // ---- Tetragon's stream ------------------------------------------------

  datatype Pod = Pod(namespace: string, labels: map<string, string>)

  datatype Process = Process(pod: Option<Pod>)

  datatype Kprobe = Kprobe(process: Option<Process>)

  /** `res.Event`; nil pointers are None. */
  datatype Event = ProcessKprobe(kp: Option<Kprobe>) | OtherEvent

  /** One answer of `stream.Recv` with the outside world's part: T1 at receipt, Tetragon's own stamp if
      any, the mint clock and jti drawn for it, and T3 before the POST. */
  datatype Message = Message(event: Event, received: int, stamp: Option<int>, minted: int, jti: string, sent: int)

  datatype Item = Eof | Broken | Next(m: Message)

  /** One attempt to open the event stream. */
  datatype Stream = NotOpened | Opened(items: seq<Item>)

  // ---- the SET ----------------------------------------------------------

  /** The claims `NewSet` fills in; the subject format, issuer and audience are constants. */
  datatype Claims = Claims(uri: string, jti: string, issued: int, eventTime: int)

  /** A POST to the actuator: the SET and the two timing headers. */
  datatype Request = Request(claims: Claims, t1: string, t3: string)

  predicate HasPod(kp: Option<Kprobe>) {
    kp.Some? && kp.value.process.Some? && kp.value.process.value.pod.Some?
  }

  /** Go's map index: the zero value for a missing key. */
  function LabelOf(labels: map<string, string>, key: string): string {
    if key in labels then labels[key] else ""
  }

  /** `buildSet`; None for its error. */
  function BuildSet(kp: Option<Kprobe>, t0: int, issued: int, jti: string): Option<Claims> {
    if !HasPod(kp) then None
    else
      var pod := kp.value.process.value.pod.value;
      Some(Claims(WorkloadUri(pod.namespace, LabelOf(pod.labels, "app")), jti, issued, t0))
  }

  /** What the actuator decodes of a request; zero clocks count as absent. */
  function BodyOf(r: Request): Body {
    Decoded(r.claims.uri, r.claims.jti, NsToTime(r.claims.eventTime), HeaderTime(r.t1), HeaderTime(r.t3))
  }

  // ---- which events are posted ------------------------------------------

  /** A kprobe event that carries pod attribution. */
  predicate Attributed(m: Message) {
    m.event.ProcessKprobe? && HasPod(m.event.kp)
  }

  function PodOf(m: Message): Pod
    requires Attributed(m)
  {
    m.event.kp.value.process.value.pod.value
  }

  /** The principal the mesh denies for it. */
  function PrincipalOf(m: Message): string
    requires Attributed(m)
  {
    "example.org/ns/" + PodOf(m).namespace + "/sa/" + LabelOf(PodOf(m).labels, "app")
  }

  function RequestOf(m: Message): Request
    requires Attributed(m)
  {
    var t0 := if m.stamp.Some? then m.stamp.value else m.received;
    Request(Claims(WorkloadUri(PodOf(m).namespace, LabelOf(PodOf(m).labels, "app")), m.jti, m.minted, t0),
            IntText(m.received), IntText(m.sent))
  }

  /** The messages of a stream up to its end or its first error. */
  function Heard(items: seq<Item>): seq<Message> {
    if items == [] || !items[0].Next? then [] else [items[0].m] + Heard(items[1..])
  }

  /** What is heard of a stream: all up to the first item that is no message. */
  lemma {:induction false} HeardPrefix(items: seq<Item>) returns (n: nat)
    ensures n <= |items| && (n < |items| ==> !items[n].Next?)
    ensures |Heard(items)| == n && forall i :: 0 <= i < n ==> items[i] == Next(Heard(items)[i])
  {
    if items == [] || !items[0].Next? {
      n := 0;
    } else {
      n := HeardPrefix(items[1..]);
      n := n + 1;
      forall i | 0 <= i < n ensures items[i] == Next(Heard(items)[i]) {
        if i > 0 {
          assert items[1..][i - 1] == items[i];
        }
      }
    }
  }

  /** The messages of every stream, in order. */
  function AllHeard(streams: seq<Stream>): seq<Message> {
    if streams == [] then []
    else
      var last := streams[|streams| - 1];
      AllHeard(streams[..|streams| - 1]) + if last.Opened? then Heard(last.items) else []
  }

  /** Streams are heard one after another. */
  lemma {:induction false} AllHeardAppend(a: seq<Stream>, b: seq<Stream>)
    ensures AllHeard(a + b) == AllHeard(a) + AllHeard(b)
  {
    if b == [] {
      assert a + b == a;
    } else {
      assert (a + b)[..|a + b| - 1] == a + b[..|b| - 1];
      AllHeardAppend(a, b[..|b| - 1]);
    }
  }

  /** One request per attributed message, in order. */
  function Requests(ms: seq<Message>): seq<Request> {
    if ms == [] then []
    else
      var m := ms[|ms| - 1];
      Requests(ms[..|ms| - 1]) + if Attributed(m) then [RequestOf(m)] else []
  }

  lemma {:induction false} RequestsAppend(a: seq<Message>, b: seq<Message>)
    ensures Requests(a + b) == Requests(a) + Requests(b)
  {
    if b == [] {
      assert a + b == a;
    } else {
      assert (a + b)[..|a + b| - 1] == a + b[..|b| - 1];
      RequestsAppend(a, b[..|b| - 1]);
    }
  }

  lemma RequestsSnoc(ms: seq<Message>, m: Message)
    ensures Requests(ms + [m]) == if Attributed(m) then Requests(ms) + [RequestOf(m)] else Requests(ms)
  {
    assert (ms + [m])[..|ms|] == ms;
  }

  /** A request is posted exactly for the attributed messages. */
  lemma {:induction false} PostedIff(ms: seq<Message>, r: Request)
    ensures r in Requests(ms) <==> exists m :: m in ms && Attributed(m) && r == RequestOf(m)
  {
    if ms == [] {
    } else {
      var init, last := ms[..|ms| - 1], ms[|ms| - 1];
      PostedIff(init, r);
      assert ms == init + [last];
    }
  }

  lemma HeardStep(items: seq<Item>, j: nat)
    requires j < |items|
    ensures Heard(items[j..]) == if items[j].Next? then [items[j].m] + Heard(items[j + 1..]) else []
  {
    assert items[j..][1..] == items[j + 1..];
  }

  /** The inner loop of `main`: one stream, until its end or its first error. */
  method Drain(items: seq<Item>) returns (posts: seq<Request>)
    ensures posts == Requests(Heard(items))
  {
    posts := [];
    ghost var done := [];
    var j := 0;
    while j < |items|
      invariant 0 <= j <= |items|
      invariant posts == Requests(done) && done + Heard(items[j..]) == Heard(items)
    {
      HeardStep(items, j);
      if !items[j].Next? {
        break;
      }
      var m := items[j].m;
      j := j + 1;
      RequestsSnoc(done, m);
      assert done + ([m] + Heard(items[j..])) == done + [m] + Heard(items[j..]);
      done := done + [m];
      if m.event.OtherEvent? || m.event.kp.None? || m.event.kp.value.process.None? {
        continue;
      }
      var t0 := if m.stamp.Some? then m.stamp.value else m.received;
      var claims := BuildSet(m.event.kp, t0, m.minted, m.jti);
      if claims.None? {
        continue;
      }
      posts := posts + [Request(claims.value, IntText(m.received), IntText(m.sent))];
    }
    assert done == Heard(items);
  }

  /** The outer loop of `main`: reconnecting, what it posts for the streams it got. */
  method Receive(streams: seq<Stream>) returns (posts: seq<Request>)
    ensures posts == Requests(AllHeard(streams))
  {
    posts := [];
    for i := 0 to |streams|
      invariant posts == Requests(AllHeard(streams[..i]))
    {
      assert streams[..i + 1][..i] == streams[..i];
      if streams[i].NotOpened? {
        assert AllHeard(streams[..i]) + [] == AllHeard(streams[..i]);
        continue;
      }
      var more := Drain(streams[i].items);
      RequestsAppend(AllHeard(streams[..i]), Heard(streams[i].items));
      posts := posts + more;
    }
    assert streams[..|streams|] == streams;
  }

  // ---- end to end -------------------------------------------------------

  function Bodies(posts: seq<Request>): seq<Body> {
    Map(posts, BodyOf)
  }

  lemma RequestTarget(m: Message)
    requires Attributed(m)
    ensures TargetOf(BodyOf(RequestOf(m))) == Some(PrincipalOf(m))
  {
    BuiltUriTargets(PodOf(m).namespace, LabelOf(PodOf(m).labels, "app"));
  }

  /** An event that a pod is attributed to. */
  predicate Names(event: Event, pod: Pod) {
    event == ProcessKprobe(Some(Kprobe(Some(Process(Some(pod))))))
  }

  /** It is posted as one SET: its subject from the pod's namespace and `app` label, T0 from Tetragon or else
      T1, issued at the mint clock; and with T1 and T3 in the headers. */
  lemma Posted(m: Message, pod: Pod)
    requires Names(m.event, pod)
    ensures var app := if "app" in pod.labels then pod.labels["app"] else "";
            var uri := "spiffe://example.org/ns/" + pod.namespace + "/sa/" + app;
            var t0 := if m.stamp.Some? then m.stamp.value else m.received;
            Requests([m]) == [Request(Claims(uri, m.jti, m.minted, t0), IntText(m.received), IntText(m.sent))]
  {
    RequestsSnoc([], m);
    assert [] + [m] == [m];
  }

  /** And an event without a pod is not. */
  lemma NotPosted(m: Message)
    requires forall pod :: !Names(m.event, pod)
    ensures Requests([m]) == []
  {
    RequestsSnoc([], m);
    assert [] + [m] == [m];
    if Attributed(m) {
      assert Names(m.event, PodOf(m));
      assert false;
    }
  }

  /** The clocks the actuator computes its spans from are the translator's own, T0 falling back to T1; a zero
      clock is an absent one. */
  lemma ClocksArrive(m: Message)
    requires Attributed(m) && IsInt64(m.received) && IsInt64(m.sent)
    ensures var b := BodyOf(RequestOf(m));
            var t0 := if m.stamp.Some? then m.stamp.value else m.received;
            && b.t0 == (if t0 == 0 then None else Some(t0))
            && b.t1 == (if m.received == 0 then None else Some(m.received))
            && b.t3 == (if m.sent == 0 then None else Some(m.sent)) && b.jti == m.jti
  {
    HeaderRoundTrip(m.received);
    HeaderRoundTrip(m.sent);
  }

  /** The principals the posted SETs name are those of the attributed messages. */
  lemma PostedTargets(ms: seq<Message>, p: string)
    ensures p in TargetsOf(Bodies(Requests(ms))) <==> exists m :: m in ms && Attributed(m) && p == PrincipalOf(m)
    ensures forall b :: b in Bodies(Requests(ms)) ==> Good(b)
  {
    var posts := Requests(ms);
    forall b | b in Bodies(posts)
      ensures Good(b) && exists m :: m in ms && Attributed(m) && TargetOf(b) == Some(PrincipalOf(m))
    {
      var i :| 0 <= i < |posts| && b == BodyOf(posts[i]);
      PostedIff(ms, posts[i]);
      var m :| m in ms && Attributed(m) && posts[i] == RequestOf(m);
      RequestTarget(m);
    }
    if m :| m in ms && Attributed(m) && p == PrincipalOf(m) {
      RequestTarget(m);
      PostedIff(ms, RequestOf(m));
      var i :| 0 <= i < |posts| && posts[i] == RequestOf(m);
      assert Bodies(posts)[i] in Bodies(posts);
    }
  }

  /** From kernel events to the mesh: if the SETs the actuator handled are those posted for the streams, in
      any order and any number of times, then, with no failures and no resets, from any quiescent state and
      whatever the interleaving, the policy ends as it was followed by the principal of each attributed event
      not marked before exactly once and nothing else, and no event failed. */
  lemma EventsToPolicy(s0: State, acts: seq<Action>, s: State, streams: seq<Stream>) returns (order: seq<string>)
    requires Ready(s0) && Formed(s0) && AllBenign(acts) && Run(s0, acts) == Some(s) && Quiescent(s) && SameBase(s0, s)
    requires forall b :: b in Arrived(s0, s) <==> b in Bodies(Requests(AllHeard(streams)))
    ensures ListIs(s0, s, order) && Distinct(order)
    ensures forall p :: p in order <==> p !in s0.revoked && Seen(streams, p)
    ensures s.counts.revoked == s0.counts.revoked + |order| && s.counts.failed == s0.counts.failed
    ensures s.counts.deduped + |order| == s0.counts.deduped + |Arrived(s0, s)|
  {
    order := RefinesSequential(s0, acts, s);
    var bodies := Arrived(s0, s);
    assert TargetsOf(bodies) == TargetsOf(Bodies(Requests(AllHeard(streams))));
    forall p ensures p in order <==> p !in s0.revoked && Seen(streams, p) {
      PostedTargets(AllHeard(streams), p);
    }
    PostedTargets(AllHeard(streams), "");
    AllGood(bodies);
    InsertAllCounts(s0.counts, s0.revoked, bodies);
    DistinctSize(order, TargetsOf(bodies) - s0.revoked);
    assert s0.revoked + TargetsOf(bodies) == s0.revoked + (TargetsOf(bodies) - s0.revoked);
  }

  /** Some kprobe event with pod attribution has this principal. */
  predicate Seen(streams: seq<Stream>, p: string) {
    exists m :: m in AllHeard(streams) && Attributed(m) && p == PrincipalOf(m)
  }

  lemma {:induction false} AllGood(bodies: seq<Body>)
    requires forall b :: b in bodies ==> Good(b)
    ensures Count(bodies, Good) == |bodies|
  {
    if bodies == [] {
    } else {
      AllGood(bodies[..|bodies| - 1]);
      assert bodies[|bodies| - 1] in bodies;
    }
  }
}
