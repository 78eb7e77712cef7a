/** Exactly which edges a generated dataset has, in terms of its nodes, and how many. */
module EdgeCounts {
  import opened Outcomes
  import opened Sequences
  import opened Identifiers
  import opened Generator
  import opened GeneratedEdges
  import opened DomainCycle

  /** Some template joins the two types under the kind. */
  predicate Joins(from: NodeType, to: NodeType, kind: string) {
    exists k :: 0 <= k < 11 && TEMPLATES[k] == Template(from, to, kind)
  }

  /** The domain behind `d` in its tenant: the next higher one, or the lowest if there is none. */
  ghost predicate IsNext(c: Config, d: nat, t: nat)
    requires c.tenants > 0
  {
    && t < c.domains && t != d && SameTenant(d, t, c.tenants)
    && (forall e: nat | e < c.domains && e > d && SameTenant(d, e, c.tenants) :: d < t <= e)
    && (t < d ==> forall e: nat | e < c.domains && SameTenant(d, e, c.tenants) :: t <= e)
  }

  /** The edge joins two nodes of one domain, version and instance as some template does. */
  ghost predicate IsInside(c: Config, e: Edge)
    requires Accepted(c)
  {
    && e.from in Addresses(c, c.domains) && e.to in Addresses(c, c.domains)
    && e.to.domain == e.from.domain && e.to.version == e.from.version && e.to.instance == e.from.instance
    && Joins(e.from.nodeType, e.to.nodeType, e.kind)
  }

  /** The edge joins the first services of a domain and the next one of its tenant. */
  ghost predicate IsCrossing(c: Config, e: Edge)
    requires Accepted(c)
  {
    && c.maxEdges >= 6
    && e.from.domain < c.domains && 1 <= e.from.version <= c.versions
    && e.from.nodeType == SERVICE && e.from.instance == 1
    && IsNext(c, e.from.domain, e.to.domain)
    && e.to == NodeAddress(e.to.domain, e.from.version, SERVICE, 1)
    && e.kind == if e.from.domain % 2 == 1 then "similar_to" else "depends_on"
  }

  /** The templates by the names of their types. */
  lemma TemplatesByName(k: nat)
    requires k < 11
    ensures (NODE_TYPES[TEMPLATES[k].from], NODE_TYPES[TEMPLATES[k].to], TEMPLATES[k].kind) == [
              ("controller", "service", "calls"), ("service", "repository", "calls"), ("repository", "table", "writes"),
              ("repository", "table", "reads"), ("service", "log_table", "writes"), ("service", "config", "configured_by"),
              ("service", "validator", "validates_with"), ("service", "event", "emits"), ("worker", "service", "handles"),
              ("command", "service", "handles"), ("event", "service", "belongs_to")][k]
  {
  }

  // ------------------------------------------------------------------------------- which edges

  /** Domains of one tenant are at least the number of tenants apart. */
  lemma TenantSteps(d: nat, e: nat, tenants: nat)
    requires tenants > 0 && d < e && SameTenant(d, e, tenants)
    ensures d + tenants <= e
  {
    Decompose(d, tenants);
    Decompose(e, tenants);
    if e / tenants <= d / tenants {
      MulMonotone(e / tenants, d / tenants, tenants);
      assert false;
    }
    MulMonotone(d / tenants + 1, e / tenants, tenants);
    OneMore(d % tenants, d / tenants, tenants);
  }

  /** Who else is in the tenant: one step up, and its first domain. */
  lemma TenantNeighbours(d: nat, tenants: nat)
    requires tenants > 0
    ensures SameTenant(d, d + tenants, tenants) && SameTenant(d, d % tenants, tenants) && d % tenants <= d
    ensures d % tenants < tenants
  {
    Decompose(d, tenants);
    OneMore(d % tenants, d / tenants, tenants);
    Compose(d % tenants, d / tenants + 1, tenants);
    Compose(d % tenants, 0, tenants);
  }

  lemma FirstOfTenant(d: nat, e: nat, tenants: nat)
    requires tenants > 0 && SameTenant(d, e, tenants)
    ensures d % tenants <= e
  {
    TenantNeighbours(e, tenants);
  }

  lemma TargetIsNext(c: Config, d: nat, t: nat)
    requires Accepted(c) && d < c.domains
    ensures CrossDomainTarget(d, c.domains, c.tenants) == Some(t) <==> IsNext(c, d, t)
  {
    TenantNeighbours(d, c.tenants);
    forall e: nat | e < c.domains && SameTenant(d, e, c.tenants)
      ensures d % c.tenants <= e
      ensures e > d ==> d + c.tenants <= e
    {
      FirstOfTenant(d, e, c.tenants);
      if e > d { TenantSteps(d, e, c.tenants); }
    }
    var first := d % c.tenants;
    assert first < c.domains && SameTenant(d, first, c.tenants);
    hide SameTenant;
    NextByBounds(c, d, t, first);
  }

  lemma NextByBounds(c: Config, d: nat, t: nat, first: nat)
    requires Accepted(c) && d < c.domains && first == d % c.tenants && first <= d
    requires SameTenant(d, first, c.tenants) && SameTenant(d, d + c.tenants, c.tenants)
    requires forall e: nat | e < c.domains && SameTenant(d, e, c.tenants) :: first <= e && (e > d ==> d + c.tenants <= e)
    ensures CrossDomainTarget(d, c.domains, c.tenants) == Some(t) <==> IsNext(c, d, t)
  {
    hide SameTenant;
  }

  /** A template's edge is emitted exactly if both its ends are nodes of the dataset. */
  lemma InnerIsInside(c: Config, e: Edge, k: nat)
    requires Accepted(c) && k < 11
    ensures IsInner(c, e, k) <==>
              && e.from in Addresses(c, c.domains) && e.to in Addresses(c, c.domains)
              && e.to.domain == e.from.domain && e.to.version == e.from.version && e.to.instance == e.from.instance
              && TEMPLATES[k] == Template(e.from.nodeType, e.to.nodeType, e.kind)
  {
    hide Addresses;
    hide TypeCount;
    AddressMembers(c, c.domains, e.from);
    AddressMembers(c, c.domains, e.to);
    hide Enumerated;
    if e.from.domain < c.domains && 1 <= e.from.version <= c.versions { InstancesRunToCount(c, e.from); }
    if e.to.domain < c.domains && 1 <= e.to.version <= c.versions { InstancesRunToCount(c, e.to); }
    EnumeratedIsPlaced(c, e.from);
    if TEMPLATES[k] == Template(e.from.nodeType, e.to.nodeType, e.kind) {
      assert e.to.domain == e.from.domain && e.to.version == e.from.version && e.to.instance == e.from.instance ==>
          e == TemplateEdge(TEMPLATES[k], e.from.domain, e.from.version, e.from.instance);
    }
  }

  lemma EnumeratedIsPlaced(c: Config, a: NodeAddress)
    requires Accepted(c)
    ensures Enumerated(c, a) ==> a.domain < c.domains && 1 <= a.version <= c.versions
  {
  }

  lemma CrossIsCrossing(c: Config, e: Edge)
    requires Accepted(c)
    ensures IsCross(c, e) <==> IsCrossing(c, e)
  {
    if e.from.domain < c.domains {
      TargetIsNext(c, e.from.domain, e.to.domain);
    }
    hide IsNext;
    hide CrossDomainTarget;
  }

  /** Exactly the edges between nodes of one instance that a template joins, and the crossing ones. */
  lemma EdgesExactly(c: Config, e: Edge)
    requires Accepted(c)
    ensures e in Edges(c, c.domains) <==> IsInside(c, e) || IsCrossing(c, e)
  {
    hide Edges;
    hide IsCross;
    hide IsCrossing;
    hide IsInner;
    hide Addresses;
    EdgeMembers(c, c.domains, e);
    EdgeIsPlaced(c, e);
    CrossIsCrossing(c, e);
    forall k: nat | k < 11
      ensures IsInner(c, e, k) <==>
                && e.from in Addresses(c, c.domains) && e.to in Addresses(c, c.domains)
                && e.to.domain == e.from.domain && e.to.version == e.from.version && e.to.instance == e.from.instance
                && TEMPLATES[k] == Template(e.from.nodeType, e.to.nodeType, e.kind)
    {
      InnerIsInside(c, e, k);
    }
    if IsInside(c, e) {
      var k :| 0 <= k < 11 && TEMPLATES[k] == Template(e.from.nodeType, e.to.nodeType, e.kind);
      assert IsInner(c, e, k);
    }
  }

  /** Another domain shares the tenant. */
  ghost predicate HasNeighbour(c: Config, d: nat)
    requires Accepted(c)
  {
    exists e: nat :: e < c.domains && e != d && SameTenant(d, e, c.tenants)
  }

  /** One edge leaves each version of a domain that has a neighbour, if the degree limit allows six. */
  lemma OneEdgeLeaves(c: Config, d: nat, v: nat)
    requires Accepted(c) && d < c.domains && 1 <= v <= c.versions
    ensures var leaving := set e | e in Edges(c, c.domains) && e.from.domain == d && e.from.version == v && e.to.domain != d;
            |leaving| == if c.maxEdges >= 6 && HasNeighbour(c, d) then 1 else 0
  {
    hide Edges;
    hide IsNext;
    hide Addresses;
    var leaving := set e | e in Edges(c, c.domains) && e.from.domain == d && e.from.version == v && e.to.domain != d;
    NeighbourIsTarget(c, d);
    var target := CrossDomainTarget(d, c.domains, c.tenants);
    forall e ensures e in leaving <==> IsCrossing(c, e) && e.from.domain == d && e.from.version == v {
      EdgesExactly(c, e);
      if IsCrossing(c, e) { NextDiffers(c, e.from.domain, e.to.domain); }
    }
    if c.maxEdges >= 6 && target.Some? {
      var edge := Edge(NodeAddress(d, v, SERVICE, 1), NodeAddress(target.value, v, SERVICE, 1),
                       if d % 2 == 1 then "similar_to" else "depends_on");
      forall e ensures e in leaving <==> e == edge {
        TargetIsNext(c, d, e.to.domain);
      }
      assert leaving == {edge};
    } else {
      forall e ensures e !in leaving {
        TargetIsNext(c, d, e.to.domain);
      }
      assert leaving == {};
    }
  }

  lemma NextDiffers(c: Config, d: nat, t: nat)
    requires Accepted(c) && IsNext(c, d, t)
    ensures t != d
  {
  }

  lemma NeighbourIsTarget(c: Config, d: nat)
    requires Accepted(c) && d < c.domains
    ensures HasNeighbour(c, d) <==> CrossDomainTarget(d, c.domains, c.tenants).Some?
  {
    hide CrossDomainTarget;
    NoTargetMeansAlone(d, c.domains, c.tenants);
    var members := Members(d, c.domains, c.tenants);
    assert d in members;
    if HasNeighbour(c, d) {
      var e: nat :| e < c.domains && e != d && SameTenant(d, e, c.tenants);
      assert e in members && e !in {d};
    } else {
      assert members == {d};
    }
  }

  // ---------------------------------------------------------------------------------- how many

  /** Templates both ends of which are among the first types. */
  function Partial(types: nat): nat {
    if types < 2 then 0 else if types < 4 then types - 1 else if types < 8 then types else types + 1
  }

  /** Edges inside a slot of so many nodes: eleven for each complete round of types, and those of the
      templates that the rest completes. */
  function PerSlot(nodes: nat): nat { 11 * (nodes / 10) + Partial(nodes % 10) }

  function Rounds(k: nat, rounds: nat, types: nat): nat
    requires k <= 11
  {
    if k == 0 then 0
    else Rounds(k - 1, rounds, types) + rounds
         + if TEMPLATES[k - 1].from < types && TEMPLATES[k - 1].to < types then 1 else 0
  }

  lemma RoundsOfAll(rounds: nat, types: nat)
    requires types < 10
    ensures Rounds(11, rounds, types) == 11 * rounds + Partial(types)
  {
    RoundsUpTo(11, rounds, types);
    LargerEnds();
    hide LargerEnd;
    assert EndsBelow(2, types) == (if 1 < types then 1 else 0) + (if 2 < types then 1 else 0);
    assert EndsBelow(4, types) == EndsBelow(2, types) + (if 3 < types then 2 else 0);
    assert EndsBelow(6, types) == EndsBelow(4, types) + (if 4 < types then 1 else 0) + (if 5 < types then 1 else 0);
    assert EndsBelow(8, types) == EndsBelow(6, types) + (if 9 < types then 1 else 0) + (if 7 < types then 1 else 0);
    assert EndsBelow(10, types) == EndsBelow(8, types) + (if 6 < types then 1 else 0) + (if 8 < types then 1 else 0);
    assert EndsBelow(11, types) == EndsBelow(10, types) + (if 7 < types then 1 else 0);
  }

  /** The larger type of each template, one after the other. */
  function LargerEnd(k: nat): nat
    requires k < 11
  {
    if TEMPLATES[k].from < TEMPLATES[k].to then TEMPLATES[k].to else TEMPLATES[k].from
  }

  lemma LargerEnds()
    ensures LargerEnd(0) == 1 && LargerEnd(1) == 2 && LargerEnd(2) == 3 && LargerEnd(3) == 3
    ensures LargerEnd(4) == 4 && LargerEnd(5) == 5 && LargerEnd(6) == 9 && LargerEnd(7) == 7
    ensures LargerEnd(8) == 6 && LargerEnd(9) == 8 && LargerEnd(10) == 7
  {
  }

  function EndsBelow(k: nat, types: nat): nat
    requires k <= 11
  {
    if k == 0 then 0 else EndsBelow(k - 1, types) + if LargerEnd(k - 1) < types then 1 else 0
  }

  lemma {:induction false} RoundsUpTo(k: nat, rounds: nat, types: nat)
    requires k <= 11
    ensures Rounds(k, rounds, types) == k * rounds + EndsBelow(k, types)
  {
    if k > 0 {
      RoundsUpTo(k - 1, rounds, types);
      Distributed(k - 1, rounds);
      LargerIsBelow(k - 1, types);
      hide LargerEnd;
    }
  }

  lemma LargerIsBelow(k: nat, types: nat)
    requires k < 11
    ensures LargerEnd(k) < types <==> TEMPLATES[k].from < types && TEMPLATES[k].to < types
  {
  }

  lemma {:induction false} InnerCount(c: Config, d: nat, v: nat, k: nat)
    requires Accepted(c) && v > 0 && k <= 11
    ensures var n := NodesInSlot(c, d, v); |InnerEdges(c, d, v, k)| == Rounds(k, n / 10, n % 10)
  {
    hide NodesInSlot;
    if k > 0 { InnerCount(c, d, v, k - 1); }
  }

  /** Edges inside the first slots: the first ones hold a node more. */
  function InFirst(c: Config, slots: nat): int
    requires Accepted(c)
  {
    var q, rest := c.nodes / Slots(c), c.nodes % Slots(c);
    if slots <= rest then slots * PerSlot(q + 1) else rest * PerSlot(q + 1) + (slots - rest) * PerSlot(q)
  }

  lemma Distributed(a: nat, b: nat)
    ensures (a + 1) * b == a * b + b
  {
  }

  lemma OneSlotMore(c: Config, d: nat, v: nat)
    requires Accepted(c) && v > 0
    ensures InFirst(c, d * c.versions + v) == InFirst(c, d * c.versions + v - 1) + PerSlot(NodesInSlot(c, d, v))
  {
    var q, rest := c.nodes / Slots(c), c.nodes % Slots(c);
    var slots := d * c.versions + v - 1;
    hide PerSlot;
    hide Slots;
    if slots < rest {
      Distributed(slots, PerSlot(q + 1));
    } else {
      Distributed(slots - rest, PerSlot(q));
    }
  }

  /** Whether an edge leaves each version of the domain. */
  function Crossing(c: Config, d: nat): nat
    requires Accepted(c)
  {
    if c.maxEdges >= 6 && CrossDomainTarget(d, c.domains, c.tenants).Some? then 1 else 0
  }

  lemma {:induction false} DomainCount(c: Config, d: nat, versions: nat)
    requires Accepted(c)
    ensures |DomainEdges(c, d, versions)| ==
            InFirst(c, d * c.versions + versions) - InFirst(c, d * c.versions) + versions * Crossing(c, d)
  {
    hide InFirst;
    hide InnerEdges;
    hide NodesInSlot;
    hide CrossDomainTarget;
    hide PerSlot;
    if versions > 0 {
      DomainCount(c, d, versions - 1);
      OneSlotMore(c, d, versions);
      InnerCount(c, d, versions, 11);
      var n := NodesInSlot(c, d, versions);
      RoundsOfAll(n / 10, n % 10);
      assert PerSlot(n) == Rounds(11, n / 10, n % 10) by { PerSlotIs(n); }
      hide Rounds;
      assert |CrossEdge(c, d, versions)| == Crossing(c, d);
      Distributed(versions - 1, Crossing(c, d));
    }
  }

  lemma PerSlotIs(n: nat)
    ensures PerSlot(n) == 11 * (n / 10) + Partial(n % 10)
  {
  }

  /** Domains below the limit that an edge leaves; those in the middle are alone in their tenant. */
  function LinkedDomains(c: Config, domains: nat): int {
    if c.maxEdges < 6 then 0
    else
      var alone := if c.domains > c.tenants then c.domains - c.tenants else 0;
      domains - if domains <= alone || c.tenants <= alone then 0 else Min(domains, c.tenants) - alone
  }

  lemma OneDomainMore(c: Config, d: nat)
    requires Accepted(c) && d < c.domains
    ensures LinkedDomains(c, d + 1) == LinkedDomains(c, d) + Crossing(c, d)
  {
    SmallIsItsRest(d, c.tenants);
  }

  lemma SmallIsItsRest(d: nat, tenants: nat)
    requires tenants > 0
    ensures d % tenants == d <==> d < tenants
  {
    TenantNeighbours(d, tenants);
    if d < tenants { Compose(d, 0, tenants); }
  }

  lemma {:induction false} CountUpTo(c: Config, domains: nat)
    requires Accepted(c) && domains <= c.domains
    ensures |Edges(c, domains)| == InFirst(c, domains * c.versions) + c.versions * LinkedDomains(c, domains)
  {
    hide InFirst;
    hide DomainEdges;
    hide Crossing;
    if domains > 0 {
      var d := domains - 1;
      CountUpTo(c, d);
      DomainCount(c, d, c.versions);
      OneDomainMore(c, d);
      Distributed(d, c.versions);
      hide LinkedDomains;
      assert c.versions * (LinkedDomains(c, d) + Crossing(c, d)) == c.versions * LinkedDomains(c, d) + c.versions * Crossing(c, d);
      assert |Edges(c, domains)| == |Edges(c, d)| + |DomainEdges(c, d, c.versions)|;
    } else {
      NothingYet(c);
    }
  }

  lemma NothingYet(c: Config)
    requires Accepted(c)
    ensures InFirst(c, 0) == 0 && LinkedDomains(c, 0) == 0
  {
  }

  /** The number of edges, by division: the slots with a node more, the others, and the crossing ones
      of every domain that has a neighbour. */
  lemma EdgeCount(c: Config)
    requires Accepted(c)
    ensures var slots := c.domains * c.versions;
            var q, rest := c.nodes / slots, c.nodes % slots;
            var crossing := if c.maxEdges < 6 then 0 else c.versions * Min(c.domains, 2 * (c.domains - c.tenants));
            slots > 0 && |Edges(c, c.domains)| == rest * PerSlot(q + 1) + (slots - rest) * PerSlot(q) + crossing
  {
    CountUpTo(c, c.domains);
    hide Edges;
    hide PerSlot;
    Positive(c.domains, c.versions);
    assert LinkedDomains(c, c.domains) == if c.maxEdges < 6 then 0 else Min(c.domains, 2 * (c.domains - c.tenants));
    var slots := Slots(c);
    assert slots == c.domains * c.versions;
    assert c.nodes % slots <= slots;
  }

  /** `edge_records`, up to names and weights. */
  method EdgeAddresses(c: Config) returns (r: seq<Edge>)
    requires Accepted(c)
    ensures r == Edges(c, c.domains) && NoRepeat(r)
    ensures forall e :: e in r <==> IsInside(c, e) || IsCrossing(c, e)
  {
    hide IsInside;
    hide IsCrossing;
    hide DomainEdges;
    hide NoRepeat;
    EdgesDistinct(c, c.domains);
    forall e ensures e in Edges(c, c.domains) <==> IsInside(c, e) || IsCrossing(c, e) { EdgesExactly(c, e); }
    r := [];
    for d := 0 to c.domains
      invariant r == Edges(c, d)
    {
      var edges := DomainLoop(c, d);
      r := r + edges;
    }
  }
}
