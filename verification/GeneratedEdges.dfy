/** The edges of a generated dataset, as the loops emit them: templates inside one version of a domain,
    and one edge to the next domain of the tenant.
 */
module GeneratedEdges {
  import opened Sequences
  import opened Identifiers
  import opened Generator
  import opened DomainCycle

  datatype Template = Template(from: NodeType, to: NodeType, kind: string)

  datatype Edge = Edge(from: NodeAddress, to: NodeAddress, kind: string)

  const TEMPLATES: seq<Template> := [
    Template(0, 1, "calls"), Template(1, 2, "calls"), Template(2, 3, "writes"), Template(2, 3, "reads"),
    Template(1, 4, "writes"), Template(1, 5, "configured_by"), Template(1, 9, "validates_with"),
    Template(1, 7, "emits"), Template(6, 1, "handles"), Template(8, 1, "handles"), Template(7, 1, "belongs_to")]

  function TemplateEdge(t: Template, d: nat, v: nat, i: nat): Edge {
    Edge(NodeAddress(d, v, t.from, i), NodeAddress(d, v, t.to, i), t.kind)
  }

  function Complete(c: Config, d: nat, v: nat, t: Template): nat
    requires Accepted(c) && v > 0
  {
    Min(TypeCount(c, d, v, t.from), TypeCount(c, d, v, t.to))
  }

  function TemplateEdges(t: Template, d: nat, v: nat, n: nat): seq<Edge> {
    seq(n, i requires 0 <= i < n => TemplateEdge(t, d, v, i + 1))
  }

  function InnerEdges(c: Config, d: nat, v: nat, k: nat): seq<Edge>
    requires Accepted(c) && v > 0 && k <= 11
  {
    if k == 0 then []
    else InnerEdges(c, d, v, k - 1) + TemplateEdges(TEMPLATES[k - 1], d, v, Complete(c, d, v, TEMPLATES[k - 1]))
  }

  function CrossEdge(c: Config, d: nat, v: nat): seq<Edge>
    requires Accepted(c)
  {
    var target := CrossDomainTarget(d, c.domains, c.tenants);
    if c.maxEdges >= 6 && target.Some? then
      [Edge(NodeAddress(d, v, SERVICE, 1), NodeAddress(target.value, v, SERVICE, 1), if d % 2 != 0 then "similar_to" else "depends_on")]
    else []
  }

  function DomainEdges(c: Config, d: nat, versions: nat): seq<Edge>
    requires Accepted(c)
  {
    if versions == 0 then []
    else DomainEdges(c, d, versions - 1) + (InnerEdges(c, d, versions, 11) + CrossEdge(c, d, versions))
  }

  function Edges(c: Config, domains: nat): seq<Edge>
    requires Accepted(c)
  {
    if domains == 0 then [] else Edges(c, domains - 1) + DomainEdges(c, domains - 1, c.versions)
  }

  /** The inner loops of `edge_records`: every template for as many instances as both ends have. */
  method TemplateLoop(c: Config, d: nat, v: nat) returns (r: seq<Edge>)
    requires Accepted(c) && v > 0
    ensures r == InnerEdges(c, d, v, 11)
  {
    hide TypeCount;
    r := [];
    for k := 0 to 11
      invariant r == InnerEdges(c, d, v, k)
    {
      var t := TEMPLATES[k];
      var complete := Min(TypeCount(c, d, v, t.from), TypeCount(c, d, v, t.to));
      for i := 1 to complete + 1
        invariant r == InnerEdges(c, d, v, k) + TemplateEdges(t, d, v, i - 1)
      {
        assert TemplateEdges(t, d, v, i) == TemplateEdges(t, d, v, i - 1) + [TemplateEdge(t, d, v, i)];
        r := r + [Edge(NodeAddress(d, v, t.from, i), NodeAddress(d, v, t.to, i), t.kind)];
      }
    }
  }

  method DomainLoop(c: Config, d: nat) returns (r: seq<Edge>)
    requires Accepted(c)
    ensures r == DomainEdges(c, d, c.versions)
  {
    hide InnerEdges;
    hide CrossDomainTarget;
    r := [];
    for v := 1 to c.versions + 1
      invariant r == DomainEdges(c, d, v - 1)
    {
      var edges := TemplateLoop(c, d, v);
      var target := CrossDomainTarget(d, c.domains, c.tenants);
      if c.maxEdges >= 6 && target.Some? {
        edges := edges + [Edge(NodeAddress(d, v, SERVICE, 1), NodeAddress(target.value, v, SERVICE, 1),
                               if d % 2 != 0 then "similar_to" else "depends_on")];
      }
      assert edges == InnerEdges(c, d, v, 11) + CrossEdge(c, d, v);
      r := r + edges;
    }
  }

  // ---------------------------------------------------------------------------- membership

  /** An edge between complete instances of one version. */
  predicate IsInner(c: Config, e: Edge, k: nat)
    requires Accepted(c) && k < 11
  {
    && e.from.domain < c.domains && 1 <= e.from.version <= c.versions
    && 1 <= e.from.instance <= Complete(c, e.from.domain, e.from.version, TEMPLATES[k])
    && e == TemplateEdge(TEMPLATES[k], e.from.domain, e.from.version, e.from.instance)
  }

  predicate IsCross(c: Config, e: Edge)
    requires Accepted(c)
  {
    e.from.domain < c.domains && 1 <= e.from.version <= c.versions && e in CrossEdge(c, e.from.domain, e.from.version)
  }

  predicate IsEdge(c: Config, e: Edge)
    requires Accepted(c)
  {
    IsCross(c, e) || exists k: nat :: k < 11 && IsInner(c, e, k)
  }

  lemma TemplateMembers(t: Template, d: nat, v: nat, n: nat, e: Edge)
    ensures e in TemplateEdges(t, d, v, n) <==> 1 <= e.from.instance <= n && e == TemplateEdge(t, d, v, e.from.instance)
  {
    var s := TemplateEdges(t, d, v, n);
    if 1 <= e.from.instance <= n && e == TemplateEdge(t, d, v, e.from.instance) { assert s[e.from.instance - 1] == e; }
  }

  lemma {:induction false} InnerMembers(c: Config, d: nat, v: nat, k: nat, e: Edge)
    requires Accepted(c) && d < c.domains && 1 <= v <= c.versions && k <= 11
    ensures e in InnerEdges(c, d, v, k) <==>
              e.from.domain == d && e.from.version == v && exists j: nat :: j < k && IsInner(c, e, j)
  {
    hide Complete;
    hide TemplateEdges;
    if k > 0 {
      InnerMembers(c, d, v, k - 1, e);
      TemplateMembers(TEMPLATES[k - 1], d, v, Complete(c, d, v, TEMPLATES[k - 1]), e);
      if e in TemplateEdges(TEMPLATES[k - 1], d, v, Complete(c, d, v, TEMPLATES[k - 1])) { assert IsInner(c, e, k - 1); }
      if e.from.domain == d && e.from.version == v && exists j: nat :: j < k && IsInner(c, e, j) {
        var j: nat :| j < k && IsInner(c, e, j);
        assert j < k - 1 || IsInner(c, e, k - 1);
      }
    }
  }

  lemma {:induction false} DomainEdgeMembers(c: Config, d: nat, versions: nat, e: Edge)
    requires Accepted(c) && d < c.domains && versions <= c.versions
    ensures e in DomainEdges(c, d, versions) <==> IsEdge(c, e) && e.from.domain == d && e.from.version <= versions
  {
    hide IsInner;
    hide InnerEdges;
    if versions > 0 {
      DomainEdgeMembers(c, d, versions - 1, e);
      InnerMembers(c, d, versions, 11, e);
    }
    EdgeIsPlaced(c, e);
  }

  lemma EdgeIsPlaced(c: Config, e: Edge)
    requires Accepted(c)
    ensures IsEdge(c, e) ==> 1 <= e.from.version <= c.versions && e.from.domain < c.domains
  {
  }

  lemma {:induction false} EdgeMembers(c: Config, domains: nat, e: Edge)
    requires Accepted(c) && domains <= c.domains
    ensures e in Edges(c, domains) <==> IsEdge(c, e) && e.from.domain < domains
  {
    hide IsEdge;
    hide DomainEdges;
    EdgeIsPlaced(c, e);
    if domains > 0 {
      EdgeMembers(c, domains - 1, e);
      DomainEdgeMembers(c, domains - 1, c.versions, e);
    }
  }

  // ---------------------------------------------------------------------------- end points

  /** Both ends of every edge are nodes that the dataset contains. */
  lemma EdgeEndsAreNodes(c: Config, e: Edge)
    requires Accepted(c) && e in Edges(c, c.domains)
    ensures e.from in Addresses(c, c.domains) && e.to in Addresses(c, c.domains)
  {
    hide Edges;
    hide Addresses;
    EdgeMembers(c, c.domains, e);
    EndsAreEnumerated(c, e);
    AddressMembers(c, c.domains, e.from);
    AddressMembers(c, c.domains, e.to);
  }

  lemma EndsAreEnumerated(c: Config, e: Edge)
    requires Accepted(c) && IsEdge(c, e)
    ensures Enumerated(c, e.from) && Enumerated(c, e.to) && e.to.version == e.from.version
  {
    hide NodesInSlot;
    if IsCross(c, e) {
      TargetStaysInTenant(e.from.domain, c.domains, c.tenants);
      SlotsAreEven(c, e.from.domain, e.from.version, e.to.domain, e.from.version);
      SlotsAreEven(c, e.to.domain, e.from.version, e.from.domain, e.from.version);
    } else {
      var k: nat :| k < 11 && IsInner(c, e, k);
      InstancesRunToCount(c, e.from);
      InstancesRunToCount(c, e.to);
    }
  }

  /** The two kinds of edge, told apart by their end's domain. */
  lemma CrossLeavesDomain(c: Config, e: Edge)
    requires Accepted(c) && IsEdge(c, e)
    ensures IsCross(c, e) <==> e.to.domain != e.from.domain
    ensures e.to.domain < c.domains && SameTenant(e.from.domain, e.to.domain, c.tenants)
  {
    hide Complete;
    if IsCross(c, e) {
      TargetStaysInTenant(e.from.domain, c.domains, c.tenants);
    }
  }

  // ---------------------------------------------------------------------------- duplicates

  lemma TemplateDistinct(t: Template, d: nat, v: nat, n: nat)
    ensures NoRepeat(TemplateEdges(t, d, v, n))
  {
    var s := TemplateEdges(t, d, v, n);
    forall i, j | 0 <= i < j < n ensures s[i] != s[j] {
      assert s[i].from.instance == i + 1 && s[j].from.instance == j + 1;
    }
  }

  lemma TemplatesDiffer(j: nat, k: nat)
    requires j < k < 11
    ensures TEMPLATES[j] != TEMPLATES[k]
  {
    assert "writes"[0] != "reads"[0];
  }

  lemma {:induction false} InnerDistinct(c: Config, d: nat, v: nat, k: nat)
    requires Accepted(c) && d < c.domains && 1 <= v <= c.versions && k <= 11
    ensures NoRepeat(InnerEdges(c, d, v, k))
  {
    hide Complete;
    hide TemplateEdges;
    if k > 0 {
      var t := TEMPLATES[k - 1];
      var before, last := InnerEdges(c, d, v, k - 1), TemplateEdges(t, d, v, Complete(c, d, v, t));
      InnerDistinct(c, d, v, k - 1);
      TemplateDistinct(t, d, v, Complete(c, d, v, t));
      forall e | e in before ensures e !in last {
        InnerMembers(c, d, v, k - 1, e);
        TemplateMembers(t, d, v, Complete(c, d, v, t), e);
        var j: nat :| j < k - 1 && IsInner(c, e, j);
        TemplatesDiffer(j, k - 1);
      }
      NoRepeatAppend(before, last);
    }
  }

  lemma VersionDistinct(c: Config, d: nat, v: nat)
    requires Accepted(c) && d < c.domains && 1 <= v <= c.versions
    ensures NoRepeat(InnerEdges(c, d, v, 11) + CrossEdge(c, d, v))
  {
    hide InnerEdges;
    InnerDistinct(c, d, v, 11);
    forall e | e in CrossEdge(c, d, v) ensures e !in InnerEdges(c, d, v, 11) {
      InnerMembers(c, d, v, 11, e);
      CrossLeavesDomain(c, e);
    }
    NoRepeatAppend(InnerEdges(c, d, v, 11), CrossEdge(c, d, v));
  }

  lemma {:induction false} DomainEdgesDistinct(c: Config, d: nat, versions: nat)
    requires Accepted(c) && d < c.domains && versions <= c.versions
    ensures NoRepeat(DomainEdges(c, d, versions))
  {
    hide IsEdge;
    hide InnerEdges;
    if versions > 0 {
      var before, last := DomainEdges(c, d, versions - 1), InnerEdges(c, d, versions, 11) + CrossEdge(c, d, versions);
      DomainEdgesDistinct(c, d, versions - 1);
      VersionDistinct(c, d, versions);
      forall e | e in before ensures e !in last {
        DomainEdgeMembers(c, d, versions - 1, e);
        InnerMembers(c, d, versions, 11, e);
      }
      NoRepeatAppend(before, last);
    }
  }

  /** No edge is emitted twice. */
  lemma {:induction false} EdgesDistinct(c: Config, domains: nat)
    requires Accepted(c) && domains <= c.domains
    ensures NoRepeat(Edges(c, domains))
  {
    hide IsEdge;
    hide DomainEdges;
    if domains > 0 {
      var before, last := Edges(c, domains - 1), DomainEdges(c, domains - 1, c.versions);
      EdgesDistinct(c, domains - 1);
      DomainEdgesDistinct(c, domains - 1, c.versions);
      forall e | e in before ensures e !in last {
        EdgeMembers(c, domains - 1, e);
        DomainEdgeMembers(c, domains - 1, c.versions, e);
      }
      NoRepeatAppend(before, last);
    }
  }

  // -------------------------------------------------------------------------------- degree

  function Outgoing(c: Config, a: NodeAddress): set<Edge>
    requires Accepted(c)
  {
    set e | e in Edges(c, c.domains) && e.from == a
  }

  function FromTemplate(a: NodeAddress, k: nat): Edge
    requires k < 11
  {
    Edge(a, NodeAddress(a.domain, a.version, TEMPLATES[k].to, a.instance), TEMPLATES[k].kind)
  }

  lemma SubsetIsSmaller<T>(a: set<T>, b: set<T>)
    requires a <= b
    ensures |a| <= |b|
  {
    assert b == a + (b - a);
  }

  lemma InnerOutgoing(c: Config, a: NodeAddress, e: Edge, k: nat)
    requires Accepted(c) && k < 11 && IsInner(c, e, k) && e.from == a
    ensures e == FromTemplate(a, k) && TEMPLATES[k].from == a.nodeType
  {
    hide Complete;
  }

  lemma OutgoingIsInner(c: Config, a: NodeAddress, e: Edge) returns (k: nat)
    requires Accepted(c) && e in Outgoing(c, a) && e !in CrossEdge(c, a.domain, a.version)
    ensures k < 11 && e == FromTemplate(a, k) && TEMPLATES[k].from == a.nodeType
  {
    hide Edges;
    hide IsInner;
    hide CrossEdge;
    hide FromTemplate;
    EdgeMembers(c, c.domains, e);
    k :| k < 11 && IsInner(c, e, k);
    InnerOutgoing(c, a, e, k);
  }

  lemma CrossIsOne(c: Config, a: NodeAddress) returns (cross: set<Edge>)
    requires Accepted(c)
    ensures |cross| <= (if c.maxEdges >= 6 then 1 else 0)
    ensures forall e :: e in cross <==> e in CrossEdge(c, a.domain, a.version)
    ensures a.nodeType != SERVICE ==> forall e | e in cross :: e.from != a
  {
    var s := CrossEdge(c, a.domain, a.version);
    cross := if s == [] then {} else {s[0]};
  }

  lemma ServiceDegree(c: Config, a: NodeAddress)
    requires Accepted(c) && a.nodeType == SERVICE
    ensures |Outgoing(c, a)| <= c.maxEdges
  {
    hide Outgoing;
    hide FromTemplate;
    var cross := CrossIsOne(c, a);
    var inner := {FromTemplate(a, 1), FromTemplate(a, 4), FromTemplate(a, 5), FromTemplate(a, 6), FromTemplate(a, 7)};
    assert |inner| <= 5;
    forall e | e in Outgoing(c, a) ensures e in inner + cross {
      if e !in cross { var k := OutgoingIsInner(c, a, e); }
    }
    SubsetIsSmaller(Outgoing(c, a), inner + cross);
    assert |inner + cross| <= |inner| + |cross|;
  }

  lemma OtherDegree(c: Config, a: NodeAddress)
    requires Accepted(c) && a.nodeType != SERVICE
    ensures |Outgoing(c, a)| <= 2
  {
    hide FromTemplate;
    var cross := CrossIsOne(c, a);
    var first := match a.nodeType case 0 => 0 case 2 => 2 case 6 => 8 case 8 => 9 case _ => 10;
    var inner := {FromTemplate(a, first), FromTemplate(a, 3)};
    forall e | e in Outgoing(c, a) ensures e in inner {
      assert e !in cross;
      var k := OutgoingIsInner(c, a, e);
    }
    SubsetIsSmaller(Outgoing(c, a), inner);
  }

  /** The degree limit that the configuration promises holds of every node. */
  lemma DegreeIsBounded(c: Config, a: NodeAddress)
    requires Accepted(c)
    ensures |Outgoing(c, a)| <= c.maxEdges
  {
    hide Outgoing;
    if a.nodeType == SERVICE { ServiceDegree(c, a); } else { OtherDegree(c, a); }
  }
}
