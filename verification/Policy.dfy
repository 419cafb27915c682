/** The DENY AuthorizationPolicy as a JSON document, and the append `revokeInMesh` patches into it. */
module Policy {
  import opened Common
  import opened Json

  /** /spec/rules/0/from/0/source/principals */
  const PATH := ["spec", "rules", "0", "from", "0", "source", "principals"]
  const PLACEHOLDER := "example.org/ns/zta-ssf/sa/placeholder-never-matches"

  const SEED_SOURCE := JObj(map["principals" := JArr([JStr(PLACEHOLDER)])])
  const SEED_RULE := JObj(map["from" := JArr([JObj(map["source" := SEED_SOURCE])])])
  const SEED_SPEC := JObj(map[
    "selector" := JObj(map["matchLabels" := JObj(map["app" := JStr("service-b")])]),
    "action" := JStr("DENY"),
    "rules" := JArr([SEED_RULE])])

  /** The seeded manifest, deploy/istio/authorization-policy-deny-revoked.yaml. */
  const SEED := JObj(map[
    "apiVersion" := JStr("security.istio.io/v1"),
    "kind" := JStr("AuthorizationPolicy"),
    "metadata" := JObj(map["name" := JStr("revoked-identities"), "namespace" := JStr("zta-ssf")]),
    "spec" := SEED_SPEC])

  predicate HasList(doc: Json) {
    Resolve(doc, PATH).Some? && Resolve(doc, PATH).value.JArr?
  }

  function ListOf(doc: Json): seq<Json>
    requires HasList(doc)
  {
    Resolve(doc, PATH).value.items
  }

  /** The JSON patch: add `v` at the end of the principals list. */
  function Append(doc: Json, v: Json): Option<Json> {
    Add(doc, PATH + ["-"], v)
  }

  /** Two documents agree on every node that is neither on the list's path nor in the list. */
  ghost predicate SameElsewhere(a: Json, b: Json) {
    forall q: seq<string> :: !(q <= PATH) && !(PATH <= q) ==> Resolve(a, q) == Resolve(b, q)
  }

  /** The patch needs the list to be there; then the list grows by the value and nothing else changes. */
  lemma AppendEffect(doc: Json, v: Json)
    requires HasList(doc)
    ensures Append(doc, v).Some?
    ensures HasList(Append(doc, v).value) && ListOf(Append(doc, v).value) == ListOf(doc) + [v]
    ensures SameElsewhere(doc, Append(doc, v).value)
  {
    AppendGrows(doc, PATH, v);
    forall q: seq<string> | !(q <= PATH) && !(PATH <= q)
      ensures Resolve(doc, q) == Resolve(Append(doc, v).value, q)
    {
      AppendFrame(doc, PATH, v, q);
    }
  }

  lemma ResolveStep(doc: Json, token: string, rest: seq<string>)
    requires Child(doc, token).Some?
    ensures Resolve(doc, [token] + rest) == Resolve(Child(doc, token).value, rest)
  {
    assert ([token] + rest)[1..] == rest;
  }

  lemma RuleHasList()
    ensures Resolve(SEED_RULE, ["from", "0", "source", "principals"]) == Some(JArr([JStr(PLACEHOLDER)]))
  {
    assert Index("0", 1) == Some(0);
    ResolveStep(SEED_RULE, "from", ["0", "source", "principals"]);
    ResolveStep(JArr([JObj(map["source" := SEED_SOURCE])]), "0", ["source", "principals"]);
    ResolveStep(JObj(map["source" := SEED_SOURCE]), "source", ["principals"]);
    ResolveStep(SEED_SOURCE, "principals", []);
    assert ["from"] + ["0", "source", "principals"] == ["from", "0", "source", "principals"];
    assert ["0"] + ["source", "principals"] == ["0", "source", "principals"];
    assert ["source"] + ["principals"] == ["source", "principals"];
    assert ["principals"] + [] == ["principals"];
  }

  /** The seeded policy denies, on the one workload it selects. */
  lemma SeedDenies()
    ensures Resolve(SEED, ["spec", "action"]) == Some(JStr("DENY"))
    ensures Resolve(SEED, ["spec", "selector"])
         == Some(JObj(map["matchLabels" := JObj(map["app" := JStr("service-b")])]))
  {
    ResolveStep(SEED, "spec", ["action"]);
    ResolveStep(SEED_SPEC, "action", []);
    ResolveStep(SEED, "spec", ["selector"]);
    ResolveStep(SEED_SPEC, "selector", []);
    assert ["spec"] + ["action"] == ["spec", "action"] && ["action"] + [] == ["action"];
    assert ["spec"] + ["selector"] == ["spec", "selector"] && ["selector"] + [] == ["selector"];
  }

  /** The seed meets the patch's precondition, with a list that is not empty. */
  lemma SeedHasList()
    ensures HasList(SEED) && ListOf(SEED) == [JStr(PLACEHOLDER)]
    ensures Resolve(SEED, ["spec", "rules", "0", "from", "0", "source", "principals"])
         == Some(JArr([JStr("example.org/ns/zta-ssf/sa/placeholder-never-matches")]))
  {
    var rest := ["from", "0", "source", "principals"];
    RuleHasList();
    assert Index("0", 1) == Some(0);
    ResolveStep(SEED, "spec", ["rules", "0"] + rest);
    ResolveStep(SEED_SPEC, "rules", ["0"] + rest);
    ResolveStep(JArr([SEED_RULE]), "0", rest);
    assert PATH == ["spec"] + (["rules", "0"] + rest);
    assert ["rules", "0"] + rest == ["rules"] + (["0"] + rest);
  }
}
