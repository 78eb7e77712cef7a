/** The records that the generator writes, and what the reader makes of them: every domain of every
    accepted configuration can be read.
 */
module GeneratedDataset {
  import opened Outcomes
  import opened Sequences
  import opened Identifiers
  import opened Generator
  import opened GeneratedEdges
  import Security
  import opened DatasetReader
  import opened ReaderProperties

  /** What the generator draws for a node: its text and its one access label. */
  datatype Content = Content(text: string, access: string)

  type Bodies = NodeAddress -> Content

  const ACL_LABELS: set<string> := {"public", "internal", "restricted"}

  /** The generator writes a classification level, which the reader does not read, and no clearance. */
  const NO_SECURITY: Security.Labels := Security.Labels(None, {})

  function ChunkOf(a: NodeAddress): string { ChunkId(a.domain, a.nodeType, a.instance, a.version) }

  function SourceOf(a: NodeAddress): string { SourceId(a.domain, a.nodeType) }

  function NodeRecordOf(c: Config, body: Bodies, a: NodeAddress): NodeRecord
    requires Accepted(c)
  {
    NodeRecord(DomainName(a.domain), TenantId(a.domain, c.tenants), SourceOf(a), VersionId(a.version), ChunkOf(a),
               body(a).text, {body(a).access}, NO_SECURITY)
  }

  function NodeRecords(c: Config, body: Bodies, addresses: seq<NodeAddress>): seq<NodeRecord>
    requires Accepted(c)
  {
    seq(|addresses|, i requires 0 <= i < |addresses| => NodeRecordOf(c, body, addresses[i]))
  }

  function EdgeRecordOf(c: Config, e: Edge): EdgeRecord
    requires Accepted(c)
  {
    EdgeRecord(TenantId(e.from.domain, c.tenants), SourceOf(e.from), VersionId(e.from.version), SourceOf(e.from),
          ChunkOf(e.from),
               SourceOf(e.to), VersionId(e.from.version), ChunkOf(e.to), e.kind)
  }

  function EdgeRecords(c: Config, edges: seq<Edge>): seq<EdgeRecord>
    requires Accepted(c)
  {
    seq(|edges|, i requires 0 <= i < |edges| => EdgeRecordOf(c, edges[i]))
  }

  /** The `i`th operation of a source: it is added, then replaced version by version. */
  function SourceOperation(c: Config, d: nat, t: NodeType, i: nat): OperationRecord
    requires Accepted(c)
  {
    OperationRecord(DomainName(d), TenantId(d, c.tenants), SourceId(d, t),
                    if i == 0 then AddSource("v1") else ReplaceSource(VersionId(i + 1)))
  }

  function SourceOperations(c: Config, d: nat, t: NodeType, n: nat): seq<OperationRecord>
    requires Accepted(c)
  {
    seq(n, i requires 0 <= i < n => SourceOperation(c, d, t, i))
  }

  function TypeOperations(c: Config, d: nat, types: nat): seq<OperationRecord>
    requires Accepted(c) && types <= 10
  {
    if types == 0 then [] else TypeOperations(c, d, types - 1) + SourceOperations(c, d, types - 1, c.versions)
  }

  function Deletion(c: Config, d: nat): OperationRecord
    requires Accepted(c)
  {
    OperationRecord(DomainName(d), TenantId(d, c.tenants), SourceId(d, CONFIG), DropSource)
  }

  function Operations(c: Config, domains: nat): seq<OperationRecord>
    requires Accepted(c)
  {
    if domains == 0 then []
    else Operations(c, domains - 1) + (TypeOperations(c, domains - 1, 10) + [Deletion(c, domains - 1)])
  }

  /** `operation_records`. */
  method OperationRecords(c: Config) returns (r: seq<OperationRecord>)
    requires Accepted(c)
    ensures r == Operations(c, c.domains)
  {
    hide DomainName;
    hide TenantId;
    hide SourceId;
    r := [];
    for d := 0 to c.domains
      invariant r == Operations(c, d)
    {
      for t := 0 to 10
        invariant r == Operations(c, d) + TypeOperations(c, d, t)
      {
        r := r + [OperationRecord(DomainName(d), TenantId(d, c.tenants), SourceId(d, t), AddSource("v1"))];
        assert SourceOperations(c, d, t, 1) == [SourceOperation(c, d, t, 0)];
        for v := 2 to c.versions + 1
          invariant r == Operations(c, d) + TypeOperations(c, d, t) + SourceOperations(c, d, t, v - 1)
        {
          assert SourceOperations(c, d, t, v) == SourceOperations(c, d, t, v - 1) + [SourceOperation(c, d, t, v - 1)];
          r := r + [OperationRecord(DomainName(d), TenantId(d, c.tenants), SourceId(d, t), ReplaceSource(VersionId(v)))];
        }
      }
      r := r + [OperationRecord(DomainName(d), TenantId(d, c.tenants), SourceId(d, CONFIG), DropSource)];
    }
  }

  function GeneratedFiles(c: Config, body: Bodies): Files
    requires Accepted(c)
  {
    Files(NodeRecords(c, body, Addresses(c, c.domains)), Operations(c, c.domains), EdgeRecords(c, Edges(c, c.domains)))
  }

  // ---------------------------------------------------------------------------------- nodes

  function Row(body: Bodies, a: NodeAddress): NodeRow {
    NodeRow(ChunkOf(a), SourceOf(a), VersionId(a.version), body(a).text, {body(a).access}, NO_SECURITY)
  }

  function Rows(body: Bodies, addresses: seq<NodeAddress>): (r: seq<NodeRow>)
    ensures |r| == |addresses|
  {
    seq(|addresses|, i requires 0 <= i < |addresses| => Row(body, addresses[i]))
  }

  function InDomain(addresses: seq<NodeAddress>, d: nat): seq<NodeAddress> {
    if addresses == [] then []
    else (if addresses[0].domain == d then [addresses[0]] else []) + InDomain(addresses[1..], d)
  }

  lemma RowsOfOneMore(body: Bodies, a: NodeAddress, rest: seq<NodeAddress>)
    ensures Rows(body, [a] + rest) == [Row(body, a)] + Rows(body, rest)
  {
    hide Row;
    var all := [a] + rest;
    forall i | 0 <= i < |all| ensures Rows(body, all)[i] == ([Row(body, a)] + Rows(body, rest))[i] {
      if i > 0 { assert all[i] == rest[i - 1]; }
    }
  }

  lemma SelectedByName(c: Config, body: Bodies, a: NodeAddress, d: nat)
    requires Accepted(c)
    ensures var r := NodeRecordOf(c, body, a);
            && (r.domain == DomainName(d) && r.tenant == TenantId(d, c.tenants) <==> a.domain == d)
            && RowOf(r) == Row(body, a)
  {
    hide DomainName;
    hide TenantId;
    if DomainName(a.domain) == DomainName(d) { DomainNameInjective(a.domain, d); }
  }

  /** Selecting by the domain's name selects the domain's nodes. */
  lemma {:induction false} SelectedRows(c: Config, body: Bodies, addresses: seq<NodeAddress>, d: nat)
    requires Accepted(c)
    ensures NodeRows(NodeRecords(c, body, addresses), DomainName(d), TenantId(d, c.tenants))
         == Rows(body, InDomain(addresses, d))
    decreases |addresses|
  {
    hide DomainName;
    hide TenantId;
    hide NodeRecordOf;
    hide RowOf;
    hide Row;
    if addresses != [] {
      var records, first, rest := NodeRecords(c, body, addresses), addresses[0], InDomain(addresses[1..], d);
      assert records[0] == NodeRecordOf(c, body, first) && records[1..] == NodeRecords(c, body, addresses[1..]);
      SelectedRows(c, body, addresses[1..], d);
      SelectedByName(c, body, first, d);
      RowsOfOneMore(body, first, rest);
      hide Rows;
      hide NodeRecords;
      assert [] + rest == rest && [] + Rows(body, rest) == Rows(body, rest);
    }
  }

  lemma {:induction false} InDomainAppend(a: seq<NodeAddress>, b: seq<NodeAddress>, d: nat)
    ensures InDomain(a + b, d) == InDomain(a, d) + InDomain(b, d)
  {
    if a == [] {
      assert a + b == b;
    } else {
      assert (a + b)[1..] == a[1..] + b;
      InDomainAppend(a[1..], b, d);
      var own, mine, others := if a[0].domain == d then [a[0]] else [], InDomain(a[1..], d), InDomain(b, d);
      assert own + (mine + others) == own + mine + others;
    }
  }

  lemma {:induction false} InDomainUniform(a: seq<NodeAddress>, d: nat, e: nat)
    requires forall x | x in a :: x.domain == e
    ensures InDomain(a, d) == if d == e then a else []
  {
    if a != [] {
      assert a[0] in a;
      InDomainUniform(a[1..], d, e);
    }
  }

  lemma {:induction false} InDomainOfAddresses(c: Config, domains: nat, d: nat)
    requires Accepted(c) && domains <= c.domains && d < c.domains
    ensures InDomain(Addresses(c, domains), d) == if d < domains then DomainAddresses(c, d, c.versions) else []
  {
    hide DomainAddresses;
    hide InDomain;
    if domains == 0 {
      InDomainUniform([], d, d + 1);
    } else {
      var last := DomainAddresses(c, domains - 1, c.versions);
      InDomainOfAddresses(c, domains - 1, d);
      InDomainAppend(Addresses(c, domains - 1), last, d);
      forall a | a in last ensures a.domain == domains - 1 { DomainMembers(c, domains - 1, c.versions, a); }
      InDomainUniform(last, d, domains - 1);
    }
  }

  lemma ChunkNamesAddress(a: NodeAddress, b: NodeAddress)
    requires ChunkOf(a) == ChunkOf(b)
    ensures a == b
  {
    hide ChunkId;
    ChunkIdInjective(a.domain, a.nodeType, a.instance, a.version, b.domain, b.nodeType, b.instance, b.version);
  }

  lemma ChunksDiffer(body: Bodies, addresses: seq<NodeAddress>)
    requires NoRepeat(addresses)
    ensures NoRepeat(Chunks(Rows(body, addresses)))
  {
    hide ChunkOf;
    var chunks := Chunks(Rows(body, addresses));
    forall i, j | 0 <= i < j < |chunks| ensures chunks[i] != chunks[j] {
      if chunks[i] == chunks[j] { ChunkNamesAddress(addresses[i], addresses[j]); }
    }
  }

  /** Reading the nodes up to some version of a domain. */
  lemma FirstNodesLoad(c: Config, body: Bodies, d: nat, v: nat)
    requires Accepted(c) && d < c.domains && v <= c.versions
    ensures var r := LoadNodes(NO_TABLES, NodeRecords(c, body, Addresses(c, d) + DomainAddresses(c, d, v)),
          DomainName(d), TenantId(d, c.tenants));
            && r.Ok? && r.value.nodes == Rows(body, DomainAddresses(c, d, v))
            && r.value.order.Keys == KeysOf(r.value.nodes) && Numbered(r.value.order) && SameButNodes(NO_TABLES, r.value)
  {
    hide Addresses;
    hide DomainAddresses;
    hide DomainName;
    hide TenantId;
    hide LoadNodes;
    hide Numbered;
    var mine := DomainAddresses(c, d, v);
    InDomainOfAddresses(c, d, d);
    InDomainAppend(Addresses(c, d), mine, d);
    forall a | a in mine ensures a.domain == d { DomainMembers(c, d, v, a); }
    InDomainUniform(mine, d, d);
    assert [] + mine == mine;
    LoadSelected(c, body, Addresses(c, d) + mine, d);
    DomainDistinct(c, d, v);
  }

  /** Reading any part of the node file. */
  lemma LoadSelected(c: Config, body: Bodies, addresses: seq<NodeAddress>, d: nat)
    requires Accepted(c)
    ensures var r := LoadNodes(NO_TABLES, NodeRecords(c, body, addresses), DomainName(d), TenantId(d, c.tenants));
            var mine := InDomain(addresses, d);
            NoRepeat(mine) ==>
              && r.Ok? && r.value.nodes == Rows(body, mine)
              && r.value.order.Keys == KeysOf(r.value.nodes) && Numbered(r.value.order) && SameButNodes(NO_TABLES, r.value)
  {
    hide NodeRecords;
    hide LoadNodes;
    hide InDomain;
    var domain, tenant, records, mine := DomainName(d), TenantId(d, c.tenants), NodeRecords(c, body, addresses),
          InDomain(addresses, d);
    if NoRepeat(mine) {
      SelectedRows(c, body, addresses, d);
      ChunksDiffer(body, mine);
      assert [] + Rows(body, mine) == Rows(body, mine);
      NodesExactly(NO_TABLES, records, domain, tenant);
      VersionsExactly(NO_TABLES, records, domain, tenant);
      NumbersFollowTheFile(NO_TABLES, records, domain, tenant);
    }
  }

  lemma {:induction false} LoadNodesAppend(t: Tables, a: seq<NodeRecord>, b: seq<NodeRecord>, domain: string, tenant: string)
    requires LoadNodes(t, a, domain, tenant).Ok?
    ensures LoadNodes(t, a + b, domain, tenant) == LoadNodes(LoadNodes(t, a, domain, tenant).value, b, domain, tenant)
    decreases |a|
  {
    hide AddNode;
    if a == [] {
      assert a + b == b;
    } else {
      assert (a + b)[1..] == a[1..] + b;
      if a[0].domain != domain || a[0].tenant != tenant {
        LoadNodesAppend(t, a[1..], b, domain, tenant);
      } else {
        LoadNodesAppend(AddNode(t, a[0]).value, a[1..], b, domain, tenant);
      }
    }
  }

  lemma {:induction false} DomainAddressesGrow(c: Config, d: nat, v: nat, w: nat)
    requires Accepted(c) && v <= w
    ensures DomainAddresses(c, d, v) <= DomainAddresses(c, d, w)
    decreases w - v
  {
    if v < w { DomainAddressesGrow(c, d, v, w - 1); }
  }

  lemma {:induction false} AddressesGrow(c: Config, d: nat, v: nat, domains: nat)
    requires Accepted(c) && d < domains && v <= c.versions
    ensures Addresses(c, d) + DomainAddresses(c, d, v) <= Addresses(c, domains)
    decreases domains
  {
    hide DomainAddresses;
    if d == domains - 1 {
      DomainAddressesGrow(c, d, v, c.versions);
    } else {
      AddressesGrow(c, d, v, domains - 1);
    }
  }

  function FullyRead(c: Config, body: Bodies, d: nat): Result<Tables, ReaderError>
    requires Accepted(c)
  {
    LoadNodes(NO_TABLES, NodeRecords(c, body, Addresses(c, c.domains)), DomainName(d), TenantId(d, c.tenants))
  }

  lemma NodesLoad(c: Config, body: Bodies, d: nat)
    requires Accepted(c) && d < c.domains
    ensures var r := FullyRead(c, body, d);
            && r.Ok? && r.value.nodes == Rows(body, DomainAddresses(c, d, c.versions))
            && r.value.order.Keys == KeysOf(r.value.nodes) && Numbered(r.value.order) && SameButNodes(NO_TABLES, r.value)
  {
    hide Addresses;
    hide DomainAddresses;
    hide LoadNodes;
    hide Numbered;
    LoadSelected(c, body, Addresses(c, c.domains), d);
    InDomainOfAddresses(c, c.domains, d);
    DomainDistinct(c, d, c.versions);
  }

  lemma KeysOfRows(c: Config, body: Bodies, d: nat, v: nat, key: SourceVersion)
    requires Accepted(c) && d < c.domains && v <= c.versions
    ensures key in KeysOf(Rows(body, DomainAddresses(c, d, v))) <==>
              exists t: NodeType, w: nat :: 1 <= w <= v && key == (SourceId(d, t), VersionId(w))
  {
    hide DomainAddresses;
    hide SourceId;
    hide VersionId;
    var addresses := DomainAddresses(c, d, v);
    var rows := Rows(body, addresses);
    if key in KeysOf(rows) {
      var i :| 0 <= i < |rows| && KeyOfRow(rows[i]) == key;
      DomainMembers(c, d, v, addresses[i]);
    }
    if t: NodeType, w: nat :| 1 <= w <= v && key == (SourceId(d, t), VersionId(w)) {
      var a := NodeAddress(d, w, t, 1);
      SlotsAreEven(c, d, w, d, w);
      DomainMembers(c, d, v, a);
      var i :| 0 <= i < |addresses| && addresses[i] == a;
      assert KeyOfRow(rows[i]) == key;
    }
  }

  lemma LaterVersionIsLarger(c: Config, body: Bodies, d: nat, t: NodeType, v: nat, w: nat)
    requires Accepted(c) && d < c.domains && 1 <= v < w <= c.versions
    requires FullyRead(c, body, d).Ok?
    ensures var order := FullyRead(c, body, d).value.order;
            var a, b := (SourceId(d, t), VersionId(v)), (SourceId(d, t), VersionId(w));
            a in order && b in order && order[a] < order[b]
  {
    hide Addresses;
    hide DomainAddresses;
    hide LoadNodes;
    hide Numbered;
    hide SourceId;
    hide VersionId;
    hide DomainName;
    hide TenantId;
    var domain, tenant := DomainName(d), TenantId(d, c.tenants);
    var early, all := Addresses(c, d) + DomainAddresses(c, d, v), Addresses(c, c.domains);
    AddressesGrow(c, d, v, c.domains);
    var late := all[|early|..];
    assert NodeRecords(c, body, all) == NodeRecords(c, body, early) + NodeRecords(c, body, late);
    FirstNodesLoad(c, body, d, v);
    NodesLoad(c, body, d);
    var partial := LoadNodes(NO_TABLES, NodeRecords(c, body, early), domain, tenant).value;
    LoadNodesAppend(NO_TABLES, NodeRecords(c, body, early), NodeRecords(c, body, late), domain, tenant);
    NumbersFollowTheFile(partial, NodeRecords(c, body, late), domain, tenant);
    var a, b := (SourceId(d, t), VersionId(v)), (SourceId(d, t), VersionId(w));
    KeysOfRows(c, body, d, v, a);
    KeysOfRows(c, body, d, v, b);
    KeysOfRows(c, body, d, c.versions, b);
    if b in partial.order {
      var u: NodeType, x: nat :| 1 <= x <= v && b == (SourceId(d, u), VersionId(x));
      VersionIdInjective(x, w);
    }
  }

  lemma {:induction false} VersionCount(source: string, n: nat)
    ensures |set w: nat | 1 <= w <= n :: (source, VersionId(w))| == n
  {
    hide VersionId;
    var s := set w: nat | 1 <= w <= n :: (source, VersionId(w));
    if n == 0 {
      assert s == {};
    } else {
      var fewer := set w: nat | 1 <= w <= n - 1 :: (source, VersionId(w));
      VersionCount(source, n - 1);
      assert s == fewer + {(source, VersionId(n))};
      if (source, VersionId(n)) in fewer {
        var w: nat :| 1 <= w <= n - 1 && VersionId(w) == VersionId(n);
        VersionIdInjective(w, n);
      }
    }
  }

  lemma {:induction false} NumberIsAtLeast(c: Config, body: Bodies, d: nat, t: NodeType, v: nat)
    requires Accepted(c) && d < c.domains && 1 <= v <= c.versions && FullyRead(c, body, d).Ok?
    ensures var key := (SourceId(d, t), VersionId(v));
            key in FullyRead(c, body, d).value.order && FullyRead(c, body, d).value.order[key] >= v - 1
  {
    hide FullyRead;
    hide SourceId;
    hide VersionId;
    if v == 1 {
      NodesLoad(c, body, d);
      KeysOfRows(c, body, d, c.versions, (SourceId(d, t), VersionId(v)));
    } else {
      NumberIsAtLeast(c, body, d, t, v - 1);
      LaterVersionIsLarger(c, body, d, t, v - 1, v);
    }
  }

  /** A source has as many versions as the configuration says. */
  lemma SourceHasVersions(c: Config, body: Bodies, d: nat, t: NodeType, order: map<SourceVersion, nat>)
    requires Accepted(c) && d < c.domains && order.Keys == KeysOf(Rows(body, DomainAddresses(c, d, c.versions)))
    ensures |VersionsOf(order, SourceId(d, t))| == c.versions
  {
    hide SourceId;
    hide VersionId;
    hide DomainAddresses;
    hide KeysOf;
    var source := SourceId(d, t);
    VersionCount(source, c.versions);
    var expected := set w: nat | 1 <= w <= c.versions :: (source, VersionId(w));
    forall k ensures k in VersionsOf(order, source) <==> k in expected { OneVersionOf(c, body, d, t, k); }
    assert VersionsOf(order, source) == expected;
  }

  lemma OneVersionOf(c: Config, body: Bodies, d: nat, t: NodeType, k: SourceVersion)
    requires Accepted(c) && d < c.domains
    ensures k in KeysOf(Rows(body, DomainAddresses(c, d, c.versions))) && k.0 == SourceId(d, t) <==>
              k in set w: nat | 1 <= w <= c.versions :: (SourceId(d, t), VersionId(w))
  {
    hide SourceId;
    hide VersionId;
    hide DomainAddresses;
    hide KeysOf;
    KeysOfRows(c, body, d, c.versions, k);
  }

  lemma {:induction false} NumberIsAtMost(c: Config, body: Bodies, d: nat, t: NodeType, v: nat)
    requires Accepted(c) && d < c.domains && 1 <= v <= c.versions && FullyRead(c, body, d).Ok?
    ensures var key := (SourceId(d, t), VersionId(v));
            key in FullyRead(c, body, d).value.order && FullyRead(c, body, d).value.order[key] <= v - 1
    decreases c.versions - v
  {
    hide FullyRead;
    hide SourceId;
    hide VersionId;
    var key := (SourceId(d, t), VersionId(v));
    if v == c.versions {
      hide DomainAddresses;
      hide KeysOf;
      NodesLoad(c, body, d);
      KeysOfRows(c, body, d, c.versions, key);
      SourceHasVersions(c, body, d, t, FullyRead(c, body, d).value.order);
    } else {
      NumberIsAtMost(c, body, d, t, v + 1);
      LaterVersionIsLarger(c, body, d, t, v, v + 1);
    }
  }
}
