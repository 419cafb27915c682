/** `removeSpireLabel` of cmd/actuator/labels.go against a cluster of pod documents. */
module Labels {
  import opened Common
  import opened Json
  import opened Text
  import opened Identity

  const LABEL := "spiffe.io/spire-managed-identity"
  const LABEL_PATH := ["metadata", "labels", LABEL]

  /** A pod's namespace and name. */
  type PodKey = (string, string)
  type Pods = map<PodKey, Json>

  /** The merge patch {"metadata":{"labels":changes}}. */
  function LabelPatch(changes: map<string, Json>): Json {
    JObj(map["metadata" := JObj(map["labels" := JObj(changes)])])
  }

  const STRIP := LabelPatch(map[LABEL := JNull])

  function Field(doc: Json, key: string): Json {
    if doc.JObj? && key in doc.members then doc.members[key] else JNull
  }

  function LabelsOf(pod: Json): map<string, Json> {
    Members(Field(Field(pod, "metadata"), "labels"))
  }

  /** The existence selector: the label is there, whatever its value. */
  predicate Labelled(pod: Json) {
    LABEL in LabelsOf(pod)
  }

  /** spec.serviceAccountName is a string equal to `sa`. */
  predicate RunsAs(pod: Json, sa: string) {
    Field(Field(pod, "spec"), "serviceAccountName") == JStr(sa)
  }

  /** The API server's answer to the list call. */
  function Listed(pods: Pods, ns: string): set<PodKey> {
    set k | k in pods && k.0 == ns && Labelled(pods[k])
  }

  /** The pods that carry the identity and the label. */
  function Carriers(pods: Pods, ns: string, sa: string): set<PodKey> {
    set k | k in Listed(pods, ns) && RunsAs(pods[k], sa)
  }

  /** The cluster after the strip reached exactly the pods in `hit`. */
  function Stripped(pods: Pods, hit: set<PodKey>): Pods {
    map k | k in pods :: if k in hit then Merge(pods[k], STRIP) else pods[k]
  }

  /** Every pod of another namespace or another account is as it was. */
  predicate OnlyIdentity(before: Pods, after: Pods, ns: string, sa: string) {
    && after.Keys == before.Keys
    && forall k :: k in before && (k.0 != ns || Resolve(before[k], ["spec", "serviceAccountName"]) != Some(JStr(sa)))
            ==> after[k] == before[k]
  }

  class Cluster {
    var pods: Pods

    constructor (pods: Pods)
      ensures this.pods == pods
    {
      this.pods := pods;
    }

    /** `removeSpireLabel`. `listFails` and `refused` are the API server's answers: whether the list
        call errors, and which pods cannot be patched. `failed` is a non-nil error, `errs` the pods
        it joins. The listing's order is arbitrary. */
    method RemoveSpireLabel(id: string, listFails: bool, refused: set<PodKey>)
      returns (patched: nat, errs: seq<PodKey>, failed: bool)
      modifies this
      ensures ParseWorkloadId(id).None? || listFails ==> failed && patched == 0 && errs == [] && pods == old(pods)
      ensures ParseWorkloadId(id).Some? && !listFails ==>
                var (ns, sa) := ParseWorkloadId(id).value;
                var carriers := Carriers(old(pods), ns, sa);
                && pods == Stripped(old(pods), carriers - refused)
                && patched == |carriers - refused|
                && patched + |errs| == |carriers|
                && multiset(errs) == multiset(carriers * refused)
                && (failed <==> errs != [])
                && OnlyIdentity(old(pods), pods, ns, sa)
    {
      patched, errs, failed := 0, [], true;
      var parsed := ParseWorkloadId(id);
      if parsed.None? || listFails {
        return;
      }
      var (ns, sa) := parsed.value;
      patched, errs := StripListed(ns, sa, refused);
      SetParts(Carriers(old(pods), ns, sa), refused);
      OthersKept(old(pods), ns, sa, Carriers(old(pods), ns, sa) - refused);
      assert |multiset(errs)| == |errs|;
      failed := errs != [];
    }

    /** The loop over the listed pods. */
    method StripListed(ns: string, sa: string, refused: set<PodKey>) returns (patched: nat, errs: seq<PodKey>)
      modifies this
      ensures var carriers := Carriers(old(pods), ns, sa);
              && pods == Stripped(old(pods), carriers - refused)
              && patched == |carriers - refused|
              && multiset(errs) == multiset(carriers * refused)
    {
      patched, errs := 0, [];
      var todo := Listed(pods, ns);
      ghost var start := pods;
      ghost var carriers := Carriers(start, ns, sa);
      StrippedNone(start);
      assert carriers - todo == {};
      while todo != {}
        invariant todo <= Listed(start, ns)
        invariant StrippedSoFar(start, pods, carriers - todo, refused, patched, errs)
        decreases todo
      {
        var pod :| pod in todo;
        NextPod(carriers, todo, pod);
        StripStep(start, pods, carriers - todo, refused, patched, errs, pod);
        assert RunsAs(pods[pod], sa) <==> pod in carriers;
        todo := todo - {pod};
        if RunsAs(pods[pod], sa) {
          if pod in refused {
            errs := errs + [pod];
          } else {
            pods := pods[pod := Merge(pods[pod], STRIP)];
            patched := patched + 1;
          }
        }
      }
      assert carriers - {} == carriers;
    }
  }

  /** The loop's state when the carriers in `done` have been dealt with. */
  predicate StrippedSoFar(start: Pods, pods: Pods, done: set<PodKey>, refused: set<PodKey>, patched: nat,
          errs: seq<PodKey>) {
    && pods == Stripped(start, done - refused)
    && patched == |done - refused| && multiset(errs) == multiset(done * refused)
  }

  /** One more carrier is refused or patched. */
  lemma StripStep(
    start: Pods, pods: Pods, done: set<PodKey>, refused: set<PodKey>, patched: nat, errs: seq<PodKey>, pod: PodKey)
    requires StrippedSoFar(start, pods, done, refused, patched, errs) && pod in start && pod !in done
    ensures pod in pods && pods[pod] == start[pod]
    ensures pod in refused ==> StrippedSoFar(start, pods, done + {pod}, refused, patched, errs + [pod])
    ensures pod !in refused ==>
              StrippedSoFar(start, pods[pod := Merge(pods[pod], STRIP)], done + {pod}, refused, patched + 1, errs)
  {
    StripOne(start, done - refused, pod);
    OneMore(done, refused, pod);
  }

  lemma OneMore(done: set<PodKey>, refused: set<PodKey>, pod: PodKey)
    requires pod !in done
    ensures pod in refused ==>
              done + {pod} - refused == done - refused && (done + {pod}) * refused == done * refused + {pod}
    ensures pod !in refused ==>
              done + {pod} - refused == done - refused + {pod} && (done + {pod}) * refused == done * refused
  {}

  lemma NextPod(carriers: set<PodKey>, todo: set<PodKey>, pod: PodKey)
    requires pod in todo
    ensures pod !in carriers - todo
    ensures carriers - (todo - {pod}) == if pod in carriers then carriers - todo + {pod} else carriers - todo
  {}

  lemma StrippedNone(pods: Pods)
    ensures Stripped(pods, {}) == pods
  {}

  lemma StripOne(pods: Pods, hit: set<PodKey>, pod: PodKey)
    requires pod in pods && pod !in hit
    ensures pod in Stripped(pods, hit) && Stripped(pods, hit)[pod] == pods[pod]
    ensures Stripped(pods, hit)[pod := Merge(pods[pod], STRIP)] == Stripped(pods, hit + {pod})
  {}

  lemma SetParts(a: set<PodKey>, b: set<PodKey>)
    ensures |a - b| + |a * b| == |a|
  {
    assert a == (a - b) + a * b;
  }

  // ---- what the merge patch does to one pod -----------------------------

  lemma LabelsFrame(labels: Json, q: seq<string>)
    requires labels.JObj? && q != []
    ensures Resolve(Merge(labels, JObj(map[LABEL := JNull])), q) == if q[0] == LABEL then None else Resolve(labels, q)
  {
    MergeMember(labels, map[LABEL := JNull], q[0]);
  }

  lemma MetadataFrame(meta: Json, q: seq<string>)
    requires meta.JObj? && Field(meta, "labels").JObj? && q != [] && q != ["labels"]
    ensures Resolve(Merge(meta, Field(STRIP, "metadata")), q)
         == if q[0] == "labels" && q[1] == LABEL then None else Resolve(meta, q)
  {
    var pl := JObj(map[LABEL := JNull]);
    MergeMember(meta, map["labels" := pl], q[0]);
    if q[0] == "labels" {
      LabelsFrame(Field(meta, "labels"), q[1..]);
    }
  }

  lemma FieldResolves(doc: Json, key: string)
    requires key != "" && !IsDigit(key[0])
    ensures Child(doc, key) == if doc.JObj? && key in doc.members then Some(Field(doc, key)) else None
  {}

  lemma PathOfTwo(doc: Json, a: string, b: string)
    ensures Resolve(doc, [a, b]) == match Child(doc, a) case None => None case Some(c) => Child(c, b)
  {
    if Child(doc, a).Some? {
      var c := Child(doc, a).value;
      assert [a, b][1..] == [b] && [b][1..] == [];
      assert Resolve(c, [b]) == Child(c, b);
    }
  }

  lemma LabelledIs(pod: Json)
    ensures Labelled(pod) <==> Resolve(pod, ["metadata", "labels", "spiffe.io/spire-managed-identity"]).Some?
  {
    var path := ["metadata", "labels", LABEL];
    FieldResolves(pod, "metadata");
    assert path[1..] == ["labels", LABEL];
    if Child(pod, "metadata").Some? {
      var meta := Field(pod, "metadata");
      PathOfTwo(meta, "labels", LABEL);
      FieldResolves(meta, "labels");
      FieldResolves(Field(meta, "labels"), LABEL);
    }
  }

  lemma RunsAsIs(pod: Json, sa: string)
    ensures RunsAs(pod, sa) <==> Resolve(pod, ["spec", "serviceAccountName"]) == Some(JStr(sa))
  {
    PathOfTwo(pod, "spec", "serviceAccountName");
    FieldResolves(pod, "spec");
    FieldResolves(Field(pod, "spec"), "serviceAccountName");
  }

  /** Which pods are stripped: those of the namespace, with the label, whatever its value, and that account. */
  lemma CarriersAre(pods: Pods, ns: string, sa: string, k: PodKey)
    ensures k in Carriers(pods, ns, sa) <==>
              && k in pods && k.0 == ns
              && Resolve(pods[k], ["metadata", "labels", "spiffe.io/spire-managed-identity"]).Some?
              && Resolve(pods[k], ["spec", "serviceAccountName"]) == Some(JStr(sa))
  {
    if k in pods {
      LabelledIs(pods[k]);
      RunsAsIs(pods[k], sa);
    }
  }

  lemma OthersKept(pods: Pods, ns: string, sa: string, hit: set<PodKey>)
    requires hit <= Carriers(pods, ns, sa)
    ensures OnlyIdentity(pods, Stripped(pods, hit), ns, sa)
  {
    forall k | k in hit ensures k.0 == ns && Resolve(pods[k], ["spec", "serviceAccountName"]) == Some(JStr(sa)) {
      CarriersAre(pods, ns, sa, k);
    }
  }

  /** The label and all below it are gone; every other node of the pod resolves as before. */
  lemma StripFrame(pod: Json, q: seq<string>)
    requires Labelled(pod) && !(q < LABEL_PATH)
    ensures Resolve(Merge(pod, STRIP), q) == if LABEL_PATH <= q then None else Resolve(pod, q)
  {
    assert q != [] && q != LABEL_PATH[..1] && q != LABEL_PATH[..2];
    MergeMember(pod, STRIP.members, q[0]);
    if q[0] == "metadata" {
      var r := q[1..];
      assert q == [q[0]] + r && r != [];
      MetadataFrame(Field(pod, "metadata"), r);
      assert LABEL_PATH <= q <==> r[0] == "labels" && r[1] == LABEL;
    }
  }

  /** A stripped pod carries the label no more, and still runs as the same account. */
  lemma StripUnlabels(pod: Json, sa: string)
    ensures !Labelled(Merge(pod, STRIP))
    ensures RunsAs(Merge(pod, STRIP), sa) <==> RunsAs(pod, sa)
  {
    var pl := JObj(map[LABEL := JNull]);
    var pm := JObj(map["labels" := pl]);
    MergeMember(pod, STRIP.members, "metadata");
    MergeMember(pod, STRIP.members, "spec");
    MergeMember(Field(pod, "metadata"), pm.members, "labels");
    MergeMember(Field(Field(pod, "metadata"), "labels"), pl.members, LABEL);
  }

  /** After a pass, exactly the pods the server refused are left to a retry; after a pass without
      refusals a repeat finds nothing, and is a no-op. */
  lemma RepeatFindsRefused(pods: Pods, ns: string, sa: string, refused: set<PodKey>)
    ensures var carriers := Carriers(pods, ns, sa);
            Carriers(Stripped(pods, carriers - refused), ns, sa) == carriers * refused
  {
    var carriers := Carriers(pods, ns, sa);
    var after := Stripped(pods, carriers - refused);
    forall k | k in pods
      ensures k in Carriers(after, ns, sa) <==> k in carriers * refused
    {
      StripUnlabels(pods[k], sa);
    }
  }

  /** The strip commutes with every concurrent merge patch of other labels: neither writer is clobbered. */
  lemma StripCommutes(pod: Json, changes: map<string, Json>)
    requires LABEL !in changes
    ensures Merge(Merge(pod, STRIP), LabelPatch(changes)) == Merge(Merge(pod, LabelPatch(changes)), STRIP)
  {
    var p, q := STRIP, LabelPatch(changes);
    assert Independent(p.members["metadata"].members["labels"], q.members["metadata"].members["labels"]);
    assert Independent(p.members["metadata"], q.members["metadata"]);
    MergeCommutes(pod, p, q);
  }
}
