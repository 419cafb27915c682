/** SPIFFE identities: how the translator builds them, and how the mesh deny and the
    label strip read them back. */
module Identity {
  import opened Common

  const SCHEME := "spiffe://"

  /** The principal `revokeInMesh` appends: the subject without its scheme, or None for its error. */
  function Principal(subject: string): Option<string> {
    if SCHEME < subject then Some(subject[|SCHEME|..]) else None
  }

  /** The URI `buildSet` puts in the SET. */
  function WorkloadUri(namespace: string, workload: string): string {
    "spiffe://example.org/ns/" + namespace + "/sa/" + workload
  }

  /** spiffe://<trust-domain>/ns/<namespace>/sa/<service-account> */
  function SpiffeId(td: string, ns: string, sa: string): string {
    SCHEME + td + "/ns/" + ns + "/sa/" + sa
  }

  /** strings.Split with a one-character separator. */
  function Split(s: string, sep: char): (parts: seq<string>)
    ensures |parts| >= 1
  {
    if s == "" then [""] else Attach(s[0], sep, Split(s[1..], sep))
  }

  /** Put one more character in front of a split text. */
  function Attach(c: char, sep: char, parts: seq<string>): (r: seq<string>)
    requires |parts| >= 1
    ensures |r| >= 1
  {
    if c == sep then [""] + parts else [[c] + parts[0]] + parts[1..]
  }

  function Join(parts: seq<string>, sep: char): string {
    if parts == [] then "" else if |parts| == 1 then parts[0]
    else parts[0] + [sep] + Join(parts[1..], sep)
  }

  /** `parseWorkloadID`: namespace and service account, or None for its errors. */
  function ParseWorkloadId(id: string): Option<(string, string)> {
    if !(SCHEME <= id) then None
    else
      var seg := Split(id[|SCHEME|..], '/');
      if |seg| != 5 || seg[1] != "ns" || seg[3] != "sa" then None
      else if seg[0] == "" || seg[2] == "" || seg[4] == "" then None
      else Some((seg[2], seg[4]))
  }

  /** Only a subject with the scheme and something after it has a principal: what comes after. */
  lemma PrincipalIff(subject: string, p: string)
    ensures Principal(subject) == Some(p) <==> p != "" && subject == "spiffe://" + p
  {
    if Principal(subject) == Some(p) {
      assert subject == subject[..9] + p;
    }
  }

  predicate Segment(s: string) {
    s != "" && '/' !in s
  }

  lemma {:induction false} JoinSplit(s: string, sep: char)
    ensures Join(Split(s, sep), sep) == s
    ensures forall p :: p in Split(s, sep) ==> sep !in p
  {
    if s == "" {
    } else {
      var rest := Split(s[1..], sep);
      JoinSplit(s[1..], sep);
      assert s == [s[0]] + s[1..];
      assert rest == [rest[0]] + rest[1..];
      if s[0] == sep {
        assert ([""] + rest)[1..] == rest;
      } else {
        var parts := [[s[0]] + rest[0]] + rest[1..];
        assert parts[1..] == rest[1..];
      }
    }
  }

  lemma AttachConcat(c: char, sep: char, p: seq<string>, q: seq<string>)
    requires |p| >= 1
    ensures Attach(c, sep, p + q) == Attach(c, sep, p) + q
  {
    assert (p + q)[1..] == p[1..] + q;
  }

  lemma {:induction false} SplitConcat(a: string, b: string, sep: char)
    ensures Split(a + [sep] + b, sep) == Split(a, sep) + Split(b, sep)
  {
    if a == "" {
      assert a + [sep] + b == [sep] + b;
    } else {
      SplitConcat(a[1..], b, sep);
      assert (a + [sep] + b)[1..] == a[1..] + [sep] + b;
      AttachConcat(a[0], sep, Split(a[1..], sep), Split(b, sep));
    }
  }

  lemma {:induction false} SplitOne(p: string, sep: char)
    ensures sep !in p <==> Split(p, sep) == [p]
    ensures |Split(p, sep)| == 1 ==> Split(p, sep) == [p]
  {
    if p == "" {
    } else {
      assert p == [p[0]] + p[1..];
      SplitOne(p[1..], sep);
    }
  }

  lemma JoinFive(td: string, ns: string, sa: string)
    ensures Join([td, "ns", ns, "sa", sa], '/') == td + "/ns/" + ns + "/sa/" + sa
  {
    assert Join([sa], '/') == sa;
    assert Join(["sa", sa], '/') == "sa/" + sa by { assert ["sa", sa][1..] == [sa]; }
    assert Join([ns, "sa", sa], '/') == ns + "/sa/" + sa by { assert [ns, "sa", sa][1..] == ["sa", sa]; }
    assert Join(["ns", ns, "sa", sa], '/') == "ns/" + ns + "/sa/" + sa by {
      assert ["ns", ns, "sa", sa][1..] == [ns, "sa", sa];
    }
    assert [td, "ns", ns, "sa", sa][1..] == ["ns", ns, "sa", sa];
  }

  lemma SplitFive(a: string, b: string, c: string, d: string, e: string)
    ensures Split(a + "/" + b + "/" + c + "/" + d + "/" + e, '/')
         == Split(a, '/') + Split(b, '/') + Split(c, '/') + Split(d, '/') + Split(e, '/')
  {
    SplitConcat(a + "/" + b + "/" + c + "/" + d, e, '/');
    SplitConcat(a + "/" + b + "/" + c, d, '/');
    SplitConcat(a + "/" + b, c, '/');
    SplitConcat(a, b, '/');
  }

  /** `parseWorkloadID` inverts the naming convention on nonempty slash-free parts, and on no others. */
  lemma ParseBuiltIff(td: string, ns: string, sa: string)
    requires Segment(td)
    ensures ParseWorkloadId(SpiffeId(td, ns, sa)) == if Segment(ns) && Segment(sa) then Some((ns, sa)) else None
  {
    var path := td + "/" + "ns" + "/" + ns + "/" + "sa" + "/" + sa;
    var id := SpiffeId(td, ns, sa);
    assert id[|SCHEME|..] == path;
    SplitFive(td, "ns", ns, "sa", sa);
    SplitOne(td, '/');
    SplitOne("ns", '/');
    SplitOne("sa", '/');
    SplitOne(ns, '/');
    SplitOne(sa, '/');
    var a, b, seg := Split(ns, '/'), Split(sa, '/'), Split(path, '/');
    assert seg == [td] + ["ns"] + a + ["sa"] + b;
    if |seg| == 5 {
      assert |a| == 1 && |b| == 1;
      assert seg[2] == a[0] && seg[4] == b[0];
    }
  }

  lemma Rejoin(seg: seq<string>)
    requires |seg| == 5 && seg[1] == "ns" && seg[3] == "sa"
    ensures Join(seg, '/') == seg[0] + "/ns/" + seg[2] + "/sa/" + seg[4]
  {
    JoinFive(seg[0], seg[2], seg[4]);
    assert seg == [seg[0], "ns", seg[2], "sa", seg[4]];
  }

  lemma BuildId(td: string, ns: string, sa: string)
    ensures SCHEME + (td + "/ns/" + ns + "/sa/" + sa) == SpiffeId(td, ns, sa)
  {}

  /** It accepts nothing else. */
  lemma ParseOnlyBuilt(id: string) returns (td: string)
    requires ParseWorkloadId(id).Some?
    ensures var (ns, sa) := ParseWorkloadId(id).value;
            Segment(td) && Segment(ns) && Segment(sa) && id == SpiffeId(td, ns, sa)
  {
    var path := id[|SCHEME|..];
    var seg := Split(path, '/');
    JoinSplit(path, '/');
    td := seg[0];
    Rejoin(seg);
    BuildId(td, seg[2], seg[4]);
    assert id == SCHEME + path;
  }

  /** Accepted exactly on spiffe://td/ns/ns/sa/sa with nonempty slash-free parts. */
  lemma ParseAcceptsIff(id: string)
    ensures ParseWorkloadId(id).Some?
        <==> exists td, ns, sa :: Segment(td) && Segment(ns) && Segment(sa) && id == SpiffeId(td, ns, sa)
  {
    if ParseWorkloadId(id).Some? {
      var td := ParseOnlyBuilt(id);
      var (ns, sa) := ParseWorkloadId(id).value;
      assert Segment(td) && Segment(ns) && Segment(sa) && id == SpiffeId(td, ns, sa);
    }
    forall td, ns, sa | Segment(td) && Segment(ns) && Segment(sa) && id == SpiffeId(td, ns, sa)
      ensures ParseWorkloadId(id).Some?
    {
      ParseBuiltIff(td, ns, sa);
    }
  }

  /** The stripped principal is injective in trust domain, namespace and service account: the mesh deny of
      one identity never hits another, and the label strip reads the same namespace and account off it. */
  lemma PrincipalInjective(td: string, ns: string, sa: string, td2: string, ns2: string, sa2: string)
    requires Segment(td) && Segment(ns) && Segment(sa) && Segment(td2) && Segment(ns2) && Segment(sa2)
    ensures Principal(SpiffeId(td, ns, sa)).Some? && ParseWorkloadId(SpiffeId(td, ns, sa)) == Some((ns, sa))
    ensures Principal(SpiffeId(td, ns, sa)) == Principal(SpiffeId(td2, ns2, sa2))
        <==> td == td2 && ns == ns2 && sa == sa2
  {
    var a, b := SpiffeId(td, ns, sa), SpiffeId(td2, ns2, sa2);
    ParseBuiltIff(td, ns, sa);
    ParseBuiltIff(td2, ns2, sa2);
    PrincipalDetermines(a, b);
    Tail(td, ns, sa);
    Tail(td2, ns2, sa2);
    if a == b {
      SameDomain(td, td2, "/ns/" + ns + "/sa/" + sa);
    }
  }

  lemma Tail(td: string, ns: string, sa: string)
    ensures SpiffeId(td, ns, sa) == SCHEME + td + ("/ns/" + ns + "/sa/" + sa)
  {}

  lemma SameDomain(td: string, td2: string, rest: string)
    requires SCHEME + td + rest == SCHEME + td2 + rest
    ensures td == td2
  {
    var a, b := SCHEME + td + rest, SCHEME + td2 + rest;
    assert |td| == |td2|;
    assert a[|SCHEME|..|SCHEME| + |td|] == td && b[|SCHEME|..|SCHEME| + |td2|] == td2;
  }

  /** An accepted subject is determined by its principal. */
  lemma PrincipalDetermines(a: string, b: string)
    requires ParseWorkloadId(a).Some?
    ensures Principal(a).Some?
    ensures Principal(a) == Principal(b) <==> a == b
  {
    var td := ParseOnlyBuilt(a);
    assert a == SCHEME + a[|SCHEME|..];
    if Principal(a) == Principal(b) {
      assert b == SCHEME + b[|SCHEME|..];
    }
  }

  /** What the translator builds is always taken by the mesh deny, and by the label strip
      exactly when namespace and app label are nonempty and slash-free. */
  lemma BuiltUriTargets(namespace: string, workload: string)
    ensures Principal(WorkloadUri(namespace, workload)) == Some("example.org/ns/" + namespace + "/sa/" + workload)
    ensures ParseWorkloadId(WorkloadUri(namespace, workload))
         == if Segment(namespace) && Segment(workload) then Some((namespace, workload)) else None
  {
    assert WorkloadUri(namespace, workload) == SCHEME + ("example.org/ns/" + namespace + "/sa/" + workload);
    assert WorkloadUri(namespace, workload) == SpiffeId("example.org", namespace, workload);
    ParseBuiltIff("example.org", namespace, workload);
  }
}
