/** The dataset generator's plan: which nodes and which edges it emits for a configuration.
    Addresses stand for records; module Identifiers gives their names.
 */
module Generator {
  import opened Outcomes
  import opened Sequences
  import opened Identifiers

  datatype Config = Config(
    nodes: int, domains: int, queries: int, progressEvery: int, tenants: int, maxEdges: int, versions: int, seed: int)

  const SERVICE: NodeType := 1
  const CONFIG: NodeType := 5

  datatype ConfigError =
    | NotPositive | NegativeSeed | TooManyTenants | TooFewEdges | TooFewNodes

  /** `validate_config`, apart from the output directory. */
  function ValidateConfig(c: Config): Result<(), ConfigError> {
    if c.nodes < 1 || c.domains < 1 || c.queries < 1 || c.progressEvery < 1 || c.tenants < 1 || c.maxEdges < 1 || c.versions < 1
    then Err(NotPositive)
    else if c.seed < 0 then Err(NegativeSeed)
    else if c.tenants > c.domains then Err(TooManyTenants)
    else if c.maxEdges < 5 then Err(TooFewEdges)
    else if c.nodes < c.domains * c.versions * 10 then Err(TooFewNodes)
    else Ok(())
  }

  predicate Accepted(c: Config) { ValidateConfig(c).Ok? }

  datatype NodeAddress = NodeAddress(domain: nat, version: nat, nodeType: NodeType, instance: nat)

  // ------------------------------------------------------------------------------- nodes

  function Slots(c: Config): (r: nat)
    requires Accepted(c)
    ensures r > 0
  {
    Positive(c.domains, c.versions);
    c.domains * c.versions
  }

  lemma Positive(a: int, b: int)
    requires a > 0 && b > 0
    ensures a * b > 0
  {
  }

  function NodesInSlot(c: Config, domain: nat, version: nat): nat
    requires Accepted(c) && version > 0
  {
    c.nodes / Slots(c) + if domain * c.versions + version - 1 < c.nodes % Slots(c) then 1 else 0
  }

  function LocalAddress(domain: nat, version: nat, i: nat): NodeAddress {
    NodeAddress(domain, version, i % 10, i / 10 + 1)
  }

  function SlotAddresses(domain: nat, version: nat, n: nat): seq<NodeAddress> {
    seq(n, i requires 0 <= i < n => LocalAddress(domain, version, i))
  }

  function DomainAddresses(c: Config, domain: nat, versions: nat): seq<NodeAddress>
    requires Accepted(c)
  {
    if versions == 0 then []
    else DomainAddresses(c, domain, versions - 1) + SlotAddresses(domain, versions, NodesInSlot(c, domain, versions))
  }

  function Addresses(c: Config, domains: nat): seq<NodeAddress>
    requires Accepted(c)
  {
    if domains == 0 then [] else Addresses(c, domains - 1) + DomainAddresses(c, domains - 1, c.versions)
  }

  /** `node_addresses`. */
  method NodeAddresses(c: Config) returns (r: seq<NodeAddress>)
    requires Accepted(c)
    ensures r == Addresses(c, c.domains)
  {
    r := [];
    for d := 0 to c.domains
      invariant r == Addresses(c, d)
    {
      for v := 1 to c.versions + 1
        invariant r == Addresses(c, d) + DomainAddresses(c, d, v - 1)
      {
        var count := NodesInSlot(c, d, v);
        for i := 0 to count
          invariant r == Addresses(c, d) + DomainAddresses(c, d, v - 1) + SlotAddresses(d, v, i)
        {
          assert SlotAddresses(d, v, i + 1) == SlotAddresses(d, v, i) + [LocalAddress(d, v, i)];
          r := r + [NodeAddress(d, v, i % 10, i / 10 + 1)];
        }
        assert r == Addresses(c, d) + DomainAddresses(c, d, v);
      }
    }
  }

  function Min(a: int, b: int): int { if a < b then a else b }

  lemma {:induction false} DomainAddressCount(c: Config, domain: nat, versions: nat)
    requires Accepted(c) && versions <= c.versions
    ensures var q, rest, k := c.nodes / Slots(c), c.nodes % Slots(c), domain * c.versions;
            |DomainAddresses(c, domain, versions)| == versions * q + Min(k + versions, rest) - Min(k, rest)
  {
    if versions > 0 {
      DomainAddressCount(c, domain, versions - 1);
      var q := c.nodes / Slots(c);
      assert versions * q == (versions - 1) * q + q;
    }
  }

  lemma {:induction false} AddressCount(c: Config, domains: nat)
    requires Accepted(c)
    ensures var q, rest, k := c.nodes / Slots(c), c.nodes % Slots(c), domains * c.versions;
            |Addresses(c, domains)| == k * q + Min(k, rest)
  {
    if domains > 0 {
      hide DomainAddresses;
      hide Slots;
      AddressCount(c, domains - 1);
      DomainAddressCount(c, domains - 1, c.versions);
      Distribute(domains - 1, c.versions, c.nodes / Slots(c));
    }
  }

  lemma Distribute(d: nat, v: nat, q: nat)
    ensures (d + 1) * v == d * v + v && (d * v + v) * q == d * v * q + v * q
  {
  }

  /** Conservation: exactly as many addresses as configured nodes. */
  lemma SlotsSumToNodes(c: Config)
    requires Accepted(c)
    ensures |Addresses(c, c.domains)| == c.nodes
  {
    hide Addresses;
    AddressCount(c, c.domains);
    var slots := Slots(c);
    hide Slots;
    assert c.nodes == slots * (c.nodes / slots) + c.nodes % slots && c.nodes % slots < slots;
  }

  /** Slots differ by one node at most, and each holds one node of every type. */
  lemma SlotsAreEven(c: Config, d: nat, v: nat, e: nat, w: nat)
    requires Accepted(c) && v > 0 && w > 0
    ensures NodesInSlot(c, d, v) <= NodesInSlot(c, e, w) + 1
    ensures NodesInSlot(c, d, v) >= 10
  {
    var slots := Slots(c);
    assert c.nodes >= slots * 10;
    assert c.nodes / slots >= 10;
  }

  /** The addresses that the enumeration reaches. */
  predicate Enumerated(c: Config, a: NodeAddress)
    requires Accepted(c)
  {
    && a.domain < c.domains && 1 <= a.version <= c.versions && a.instance >= 1
    && (a.instance - 1) * 10 + a.nodeType < NodesInSlot(c, a.domain, a.version)
  }

  lemma SlotMembers(domain: nat, version: nat, n: nat, a: NodeAddress)
    ensures a in SlotAddresses(domain, version, n) <==>
              && a.domain == domain && a.version == version && a.instance >= 1
              && (a.instance - 1) * 10 + a.nodeType < n
  {
    var s := SlotAddresses(domain, version, n);
    if a.domain == domain && a.version == version && a.instance >= 1 {
      var i := (a.instance - 1) * 10 + a.nodeType;
      assert LocalAddress(domain, version, i) == a;
      if i < n { assert s[i] == a; }
    }
    if a in s {
      var i :| 0 <= i < n && s[i] == a;
      assert (a.instance - 1) * 10 + a.nodeType == i;
    }
  }

  lemma {:induction false} DomainMembers(c: Config, domain: nat, versions: nat, a: NodeAddress)
    requires Accepted(c) && domain < c.domains && versions <= c.versions
    ensures a in DomainAddresses(c, domain, versions) <==> Enumerated(c, a) && a.domain == domain && a.version <= versions
  {
    if versions > 0 {
      DomainMembers(c, domain, versions - 1, a);
      SlotMembers(domain, versions, NodesInSlot(c, domain, versions), a);
    }
  }

  lemma {:induction false} AddressMembers(c: Config, domains: nat, a: NodeAddress)
    requires Accepted(c) && domains <= c.domains
    ensures a in Addresses(c, domains) <==> Enumerated(c, a) && a.domain < domains
  {
    if domains > 0 {
      AddressMembers(c, domains - 1, a);
      DomainMembers(c, domains - 1, c.versions, a);
    }
  }

  lemma SlotDistinct(domain: nat, version: nat, n: nat)
    ensures NoRepeat(SlotAddresses(domain, version, n))
  {
    var s := SlotAddresses(domain, version, n);
    forall i, j | 0 <= i < j < n ensures s[i] != s[j] {
      assert s[i] == LocalAddress(domain, version, i) && s[j] == LocalAddress(domain, version, j);
    }
  }

  lemma {:induction false} DomainDistinct(c: Config, domain: nat, versions: nat)
    requires Accepted(c) && domain < c.domains && versions <= c.versions
    ensures NoRepeat(DomainAddresses(c, domain, versions))
  {
    if versions > 0 {
      var before, slot := DomainAddresses(c, domain, versions - 1),
            SlotAddresses(domain, versions, NodesInSlot(c, domain, versions));
      DomainDistinct(c, domain, versions - 1);
      SlotDistinct(domain, versions, NodesInSlot(c, domain, versions));
      forall a | a in before ensures a !in slot {
        DomainMembers(c, domain, versions - 1, a);
        SlotMembers(domain, versions, NodesInSlot(c, domain, versions), a);
      }
      NoRepeatAppend(before, slot);
    }
  }

  lemma {:induction false} AddressesDistinct(c: Config, domains: nat)
    requires Accepted(c) && domains <= c.domains
    ensures NoRepeat(Addresses(c, domains))
  {
    if domains > 0 {
      var before, last := Addresses(c, domains - 1), DomainAddresses(c, domains - 1, c.versions);
      AddressesDistinct(c, domains - 1);
      DomainDistinct(c, domains - 1, c.versions);
      forall a | a in before ensures a !in last {
        AddressMembers(c, domains - 1, a);
        DomainMembers(c, domains - 1, c.versions, a);
      }
      NoRepeatAppend(before, last);
    }
  }

  /** `node_type_counts`. */
  function TypeCount(c: Config, domain: nat, version: nat, nodeType: NodeType): nat
    requires Accepted(c) && version > 0
  {
    var n := NodesInSlot(c, domain, version);
    n / 10 + if nodeType < n % 10 then 1 else 0
  }

  /** Instances of a type run from one to its count. */
  lemma InstancesRunToCount(c: Config, a: NodeAddress)
    requires Accepted(c) && a.domain < c.domains && 1 <= a.version <= c.versions
    ensures Enumerated(c, a) <==> 1 <= a.instance <= TypeCount(c, a.domain, a.version, a.nodeType)
  {
  }

  lemma {:induction false} InstanceCount(domain: nat, version: nat, nodeType: NodeType, n: nat)
    ensures |set i: nat | 1 <= i <= n :: NodeAddress(domain, version, nodeType, i)| == n
  {
    var s := set i: nat | 1 <= i <= n :: NodeAddress(domain, version, nodeType, i);
    if n == 0 {
      assert s == {};
    } else {
      InstanceCount(domain, version, nodeType, n - 1);
      assert s == (set i: nat | 1 <= i <= n - 1 :: NodeAddress(domain, version, nodeType, i)) + {NodeAddress(domain, version, nodeType, n)};
    }
  }

  /** The counts computed from the slot size are the counts of enumerated addresses. */
  lemma TypeCountsMatch(c: Config, domain: nat, version: nat, nodeType: NodeType)
    requires Accepted(c) && domain < c.domains && 1 <= version <= c.versions
    ensures TypeCount(c, domain, version, nodeType)
         == |set a | a in Addresses(c, c.domains) && a.domain == domain && a.version == version && a.nodeType == nodeType|
  {
    hide Addresses;
    var n := TypeCount(c, domain, version, nodeType);
    var all := set a | a in Addresses(c, c.domains) && a.domain == domain && a.version == version && a.nodeType == nodeType;
    var counted := set i: nat | 1 <= i <= n :: NodeAddress(domain, version, nodeType, i);
    forall a ensures a in all <==> a in counted {
      AddressMembers(c, c.domains, a);
      if a.domain == domain && a.version == version && a.nodeType == nodeType {
        InstancesRunToCount(c, a);
        assert a == NodeAddress(domain, version, nodeType, a.instance);
      }
    }
    assert all == counted;
    InstanceCount(domain, version, nodeType, n);
  }
}
