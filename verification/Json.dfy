/** JSON documents and the two patch languages the API server applies for the actuator:
    the `add` operation of JSON Patch (section 4.1 of RFC 6902, array tokens of section 4
    of RFC 6901) and JSON Merge Patch (section 2 of RFC 7396). */
module Json {
  import opened Common
  import opened Text

  datatype Json =
    | JNull
    | JBool(b: bool)
    | JNum(n: int)
    | JStr(s: string)
    | JArr(items: seq<Json>)
    | JObj(members: map<string, Json>)

  // ---- JSON Pointer -----------------------------------------------------

  /** An array index token: decimal without leading zeros, below `bound`. */
  function Index(token: string, bound: nat): Option<nat> {
    if token != "" && AllDigits(token) && (token == "0" || token[0] != '0') && Value(token) < bound
    then Some(Value(token)) else None
  }

  /** The node one token below `doc`. */
  function Child(doc: Json, token: string): Option<Json> {
    match doc
    case JObj(m) => if token in m then Some(m[token]) else None
    case JArr(xs) => (match Index(token, |xs|) case Some(i) => Some(xs[i]) case None => None)
    case _ => None
  }

  /** The node a pointer names. */
  function Resolve(doc: Json, path: seq<string>): Option<Json> {
    if path == [] then Some(doc)
    else match Child(doc, path[0]) case Some(c) => Resolve(c, path[1..]) case None => None
  }

  // ---- JSON Patch add ---------------------------------------------------

  /** Replace an existing child. */
  function WithChild(doc: Json, token: string, c: Json): Json
    requires Child(doc, token).Some?
  {
    match doc
    case JObj(m) => JObj(m[token := c])
    case JArr(xs) => JArr(xs[Index(token, |xs|).value := c])
  }

  /** `{"op":"add","path":path,"value":v}`; None is the server's error. */
  function Add(doc: Json, path: seq<string>, v: Json): Option<Json> {
    if path == [] then Some(v)
    else if |path| == 1 then
      match doc
      case JObj(m) => Some(JObj(m[path[0] := v]))
      case JArr(xs) =>
        if path[0] == "-" then Some(JArr(xs + [v]))
        else (match Index(path[0], |xs| + 1)
          case Some(i) => Some(JArr(xs[..i] + [v] + xs[i..]))
          case None => None)
      case _ => None
    else match Child(doc, path[0])
      case None => None
      case Some(c) =>
        match Add(c, path[1..], v)
        case None => None
        case Some(c') => Some(WithChild(doc, path[0], c'))
  }

  lemma IndexValue(a: string, b: string, bound: nat)
    requires Index(a, bound).Some? && Index(b, bound).Some? && Index(a, bound) == Index(b, bound)
    ensures a == b
  {
    OnlyDecimal(a);
    OnlyDecimal(b);
  }

  lemma ChildOfWithChild(doc: Json, token: string, c: Json, other: string)
    requires Child(doc, token).Some?
    ensures Child(WithChild(doc, token, c), other) == if other == token then Some(c) else Child(doc, other)
  {
    match doc
    case JArr(xs) =>
      if Index(other, |xs|).Some? && other != token && Index(other, |xs|) == Index(token, |xs|) {
        IndexValue(other, token, |xs|);
      }
    case _ =>
  }

  /** An `add` at `-` succeeds exactly when the parent exists and is a container
      (an object gets a member called "-", which is why the seed must hold a list). */
  lemma {:induction false} AppendSucceedsIff(doc: Json, parent: seq<string>, v: Json)
    ensures Add(doc, parent + ["-"], v).Some?
        <==> Resolve(doc, parent).Some? && (Resolve(doc, parent).value.JArr? || Resolve(doc, parent).value.JObj?)
  {
    if parent == [] {
      assert parent + ["-"] == ["-"];
    } else {
      assert (parent + ["-"])[1..] == parent[1..] + ["-"];
      match Child(doc, parent[0])
      case Some(c) => AppendSucceedsIff(c, parent[1..], v);
      case None =>
    }
  }

  /** The array grows by exactly the appended value, at its end. */
  lemma {:induction false} AppendGrows(doc: Json, parent: seq<string>, v: Json)
    requires Resolve(doc, parent).Some? && Resolve(doc, parent).value.JArr?
    ensures Add(doc, parent + ["-"], v).Some?
    ensures Resolve(Add(doc, parent + ["-"], v).value, parent)
         == Some(JArr(Resolve(doc, parent).value.items + [v]))
  {
    var path := parent + ["-"];
    if parent == [] {
      assert path == ["-"];
    } else {
      assert path[1..] == parent[1..] + ["-"];
      var c := Child(doc, parent[0]).value;
      AppendGrows(c, parent[1..], v);
      ChildOfWithChild(doc, parent[0], Add(c, path[1..], v).value, parent[0]);
    }
  }

  /** No other node changes: a pointer off the array's path, or to one of its old items, resolves as before. */
  lemma {:induction false} AppendFrame(doc: Json, parent: seq<string>, v: Json, q: seq<string>)
    requires Resolve(doc, parent).Some? && Resolve(doc, parent).value.JArr?
    requires !(q <= parent)
    requires parent < q ==> Index(q[|parent|], |Resolve(doc, parent).value.items|).Some?
    ensures Add(doc, parent + ["-"], v).Some?
    ensures Resolve(Add(doc, parent + ["-"], v).value, q) == Resolve(doc, q)
  {
    AppendGrows(doc, parent, v);
    var path := parent + ["-"];
    if parent == [] {
      assert path == ["-"];
    } else {
      assert path[1..] == parent[1..] + ["-"];
      var c := Child(doc, parent[0]).value;
      AppendGrows(c, parent[1..], v);
      ChildOfWithChild(doc, parent[0], Add(c, path[1..], v).value, q[0]);
      if q[0] == parent[0] {
        assert parent == [parent[0]] + parent[1..] && q == [q[0]] + q[1..];
        AppendFrame(c, parent[1..], v, q[1..]);
      }
    }
  }

  /** An `add` of a member sets it. */
  lemma {:induction false} AddMember(doc: Json, parent: seq<string>, key: string, v: Json)
    requires Resolve(doc, parent).Some? && Resolve(doc, parent).value.JObj?
    ensures Add(doc, parent + [key], v).Some?
    ensures Resolve(Add(doc, parent + [key], v).value, parent)
         == Some(JObj(Resolve(doc, parent).value.members[key := v]))
  {
    var path := parent + [key];
    if parent == [] {
      assert path == [key];
    } else {
      assert path[1..] == parent[1..] + [key];
      var c := Child(doc, parent[0]).value;
      AddMember(c, parent[1..], key, v);
      ChildOfWithChild(doc, parent[0], Add(c, path[1..], v).value, parent[0]);
    }
  }

  /** An `add` at an index puts the value in before the item that is there. */
  lemma {:induction false} AddItem(doc: Json, parent: seq<string>, i: nat, v: Json)
    requires Resolve(doc, parent).Some? && Resolve(doc, parent).value.JArr?
    requires i <= |Resolve(doc, parent).value.items|
    ensures Add(doc, parent + [Decimal(i)], v).Some?
    ensures var xs := Resolve(doc, parent).value.items;
            Resolve(Add(doc, parent + [Decimal(i)], v).value, parent) == Some(JArr(xs[..i] + [v] + xs[i..]))
  {
    var path := parent + [Decimal(i)];
    if parent == [] {
      assert path == [Decimal(i)];
      DecimalValue(i);
      DecimalLeads(i);
      assert IsDigit(Decimal(i)[0]);
    } else {
      assert path[1..] == parent[1..] + [Decimal(i)];
      var c := Child(doc, parent[0]).value;
      AddItem(c, parent[1..], i, v);
      ChildOfWithChild(doc, parent[0], Add(c, path[1..], v).value, parent[0]);
    }
  }

  // ---- JSON Merge Patch -------------------------------------------------

  function Members(doc: Json): map<string, Json> {
    if doc.JObj? then doc.members else map[]
  }

  /** MergePatch of section 2 of RFC 7396. A missing member is patched as a non-object. */
  function Merge(target: Json, patch: Json): Json
    decreases patch
  {
    match patch
    case JObj(p) =>
      var t := Members(target);
      JObj(map k | k in t.Keys + p.Keys && !(k in p && p[k].JNull?) ::
        if k in p then Merge(if k in t then t[k] else JNull, p[k]) else t[k])
    case _ => patch
  }

  lemma MergeMember(target: Json, p: map<string, Json>, k: string)
    ensures var t, r := Members(target), Members(Merge(target, JObj(p)));
            && (k in r <==> (k in p && !p[k].JNull?) || (k !in p && k in t))
            && (k in r && k in p ==> r[k] == Merge(if k in t then t[k] else JNull, p[k]))
            && (k in r && k !in p ==> r[k] == t[k])
  {}

  /** A path on which the patch holds objects down to a value that is none. */
  predicate Leaf(patch: Json, path: seq<string>) {
    if path == [] then !patch.JObj?
    else patch.JObj? && path[0] in patch.members && Leaf(patch.members[path[0]], path[1..])
  }

  /** A merge patch removes what it gives as null, and sets every other value it gives. */
  lemma {:induction false} MergeSets(target: Json, patch: Json, path: seq<string>)
    requires path != [] && Leaf(patch, path)
    ensures Resolve(Merge(target, patch), path)
         == if Resolve(patch, path) == Some(JNull) then None else Resolve(patch, path)
    decreases path
  {
    var k, rest := path[0], path[1..];
    var t, v := Members(target), patch.members[path[0]];
    MergeMember(target, patch.members, k);
    assert Child(patch, k) == Some(v);
    if rest == [] {
      assert !v.JObj? && Resolve(patch, path) == Some(v);
    } else {
      MergeSets(if k in t then t[k] else JNull, v, rest);
    }
  }

  /** A path that leaves the patch's objects where both documents still have one. */
  predicate Beside(target: Json, patch: Json, path: seq<string>) {
    && path != [] && target.JObj? && patch.JObj?
    && (path[0] in patch.members ==>
          path[0] in target.members && Beside(target.members[path[0]], patch.members[path[0]], path[1..]))
  }

  /** And leaves everything beside it as it was. */
  lemma {:induction false} MergeKeeps(target: Json, patch: Json, path: seq<string>)
    requires Beside(target, patch, path)
    ensures Resolve(Merge(target, patch), path) == Resolve(target, path)
  {
    var k := path[0];
    MergeMember(target, patch.members, k);
    if k in patch.members {
      MergeKeeps(target.members[k], patch.members[k], path[1..]);
    }
  }

  /** Applying a merge patch twice is applying it once, for every document and patch. */
  lemma {:induction false} MergeIdempotent(target: Json, patch: Json)
    ensures Merge(Merge(target, patch), patch) == Merge(target, patch)
    decreases patch
  {
    match patch
    case JObj(p) =>
      var once := Merge(target, patch);
      var twice := Merge(once, patch);
      forall k ensures k in once.members <==> k in twice.members
        ensures k in once.members ==> once.members[k] == twice.members[k]
      {
        MergeMember(target, p, k);
        MergeMember(once, p, k);
        if k in once.members && k in p {
          MergeIdempotent(if k in Members(target) then Members(target)[k] else JNull, p[k]);
        }
      }
    case _ =>
  }

  /** Two merge patches that write no common leaf. */
  predicate Independent(p: Json, q: Json)
    decreases p
  {
    p.JObj? && q.JObj? && forall k :: k in p.members && k in q.members ==> Independent(p.members[k], q.members[k])
  }

  /** Independent merge patches commute on every document. */
  lemma {:induction false} MergeCommutes(target: Json, p: Json, q: Json)
    requires Independent(p, q)
    ensures Merge(Merge(target, p), q) == Merge(Merge(target, q), p)
    decreases p
  {
    var a, b := Merge(Merge(target, p), q), Merge(Merge(target, q), p);
    forall k ensures k in a.members <==> k in b.members
      ensures k in a.members ==> a.members[k] == b.members[k]
    {
      MergeMember(target, p.members, k);
      MergeMember(target, q.members, k);
      MergeMember(Merge(target, p), q.members, k);
      MergeMember(Merge(target, q), p.members, k);
      if k in p.members && k in q.members {
        MergeCommutes(if k in Members(target) then Members(target)[k] else JNull, p.members[k], q.members[k]);
      }
    }
  }
}
