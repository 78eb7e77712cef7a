/** The reader on a whole generated dataset. */
module GeneratedReading {
  import opened Outcomes
  import opened Sequences
  import opened Identifiers
  import opened Generator
  import opened GeneratedEdges
  import opened DomainCycle
  import opened DatasetReader
  import opened ReaderProperties
  import opened GeneratedDataset

  // ---------------------------------------------------------------------------- operations

  /** An operation of the generator, with its domain. */
  predicate IsOperation(c: Config, o: OperationRecord, d: nat)
    requires Accepted(c)
  {
    o == Deletion(c, d) || exists t: NodeType, i: nat :: i < c.versions && o == SourceOperation(c, d, t, i)
  }

  lemma SourceOperationMembers(c: Config, d: nat, t: NodeType, n: nat, o: OperationRecord)
    requires Accepted(c) && n <= c.versions && o in SourceOperations(c, d, t, n)
    ensures IsOperation(c, o, d) && !o.operation.DropSource?
  {
    hide DomainName;
    hide TenantId;
    hide SourceId;
    hide VersionId;
    var s := SourceOperations(c, d, t, n);
    var i :| 0 <= i < |s| && s[i] == o;
    assert o == SourceOperation(c, d, t, i);
  }

  lemma {:induction false} TypeOperationMembers(c: Config, d: nat, types: nat, o: OperationRecord)
    requires Accepted(c) && types <= 10 && o in TypeOperations(c, d, types)
    ensures IsOperation(c, o, d) && !o.operation.DropSource?
  {
    hide IsOperation;
    hide SourceOperations;
    if o in TypeOperations(c, d, types - 1) {
      TypeOperationMembers(c, d, types - 1, o);
    } else {
      SourceOperationMembers(c, d, types - 1, c.versions, o);
    }
  }

  lemma {:induction false} OperationMembers(c: Config, domains: nat, o: OperationRecord) returns (d: nat)
    requires Accepted(c) && o in Operations(c, domains)
    ensures d < domains && IsOperation(c, o, d) && (o.operation.DropSource? ==> o == Deletion(c, d))
  {
    hide IsOperation;
    hide TypeOperations;
    hide Deletion;
    if o in Operations(c, domains - 1) {
      d := OperationMembers(c, domains - 1, o);
    } else {
      d := domains - 1;
      if o in TypeOperations(c, d, 10) { TypeOperationMembers(c, d, 10, o); } else { DeletionIsOperation(c, d); }
    }
  }

  lemma DeletionIsOperation(c: Config, d: nat)
    requires Accepted(c)
    ensures IsOperation(c, Deletion(c, d), d)
  {
  }

  lemma {:induction false} DeletionIsThere(c: Config, domains: nat, d: nat)
    requires Accepted(c) && d < domains
    ensures Deletion(c, d) in Operations(c, domains)
  {
    hide Deletion;
    hide TypeOperations;
    if d < domains - 1 { DeletionIsThere(c, domains - 1, d); }
  }

  lemma AppliesToItsDomain(c: Config, o: OperationRecord, e: nat, d: nat)
    requires Accepted(c) && IsOperation(c, o, e)
    ensures Applies(o, DomainName(d), TenantId(d, c.tenants)) <==> e == d
  {
    hide DomainName;
    hide TenantId;
    hide SourceId;
    if DomainName(e) == DomainName(d) { DomainNameInjective(e, d); }
  }

  /** Every operation that applies is known once the domain's nodes are read. */
  lemma OperationsAreKnown(c: Config, body: Bodies, d: nat, order: map<SourceVersion, nat>)
    requires Accepted(c) && d < c.domains && order.Keys == KeysOf(Rows(body, DomainAddresses(c, d, c.versions)))
    ensures forall o | o in Operations(c, c.domains) && Applies(o, DomainName(d), TenantId(d, c.tenants)) :: Known(order, o)
  {
    hide Operations;
    hide DomainName;
    hide TenantId;
    hide DomainAddresses;
    hide IsOperation;
    forall o | o in Operations(c, c.domains) && Applies(o, DomainName(d), TenantId(d, c.tenants)) ensures Known(order, o) {
      var e := OperationMembers(c, c.domains, o);
      AppliesToItsDomain(c, o, e, d);
      OneIsKnown(c, body, d, order, o);
    }
  }

  lemma OneIsKnown(c: Config, body: Bodies, d: nat, order: map<SourceVersion, nat>, o: OperationRecord)
    requires Accepted(c) && d < c.domains && order.Keys == KeysOf(Rows(body, DomainAddresses(c, d, c.versions)))
    requires IsOperation(c, o, d)
    ensures Known(order, o)
  {
    hide DomainName;
    hide TenantId;
    hide DomainAddresses;
    hide SourceId;
    if o != Deletion(c, d) {
      var t: NodeType, i: nat :| i < c.versions && o == SourceOperation(c, d, t, i);
      assert VersionId(1) == "v1";
      KeysOfRows(c, body, d, c.versions, (SourceId(d, t), VersionId(i + 1)));
    }
  }

  lemma {:induction false} LastSetAppend(a: seq<OperationRecord>, b: seq<OperationRecord>, domain: string,
        tenant: string, source: string)
    ensures LastSet(a + b, domain, tenant, source) ==
              if LastSet(b, domain, tenant, source).Some? then LastSet(b, domain, tenant, source) else LastSet(a,
                    domain, tenant, source)
    decreases |b|
  {
    if b == [] {
      assert a + b == a;
    } else {
      assert (a + b)[..|a + b| - 1] == a + b[..|b| - 1];
      LastSetAppend(a, b[..|b| - 1], domain, tenant, source);
    }
  }

  lemma {:induction false} LastSetNone(a: seq<OperationRecord>, domain: string, tenant: string, source: string)
    requires forall o | o in a :: !Applies(o, domain, tenant) || o.source != source || o.operation.DropSource?
    ensures LastSet(a, domain, tenant, source).None?
  {
    if a != [] {
      assert a[|a| - 1] in a;
      LastSetNone(a[..|a| - 1], domain, tenant, source);
    }
  }

  lemma SourceEndsAtLastVersion(c: Config, d: nat, t: NodeType)
    requires Accepted(c)
    ensures LastSet(SourceOperations(c, d, t, c.versions), DomainName(d), TenantId(d, c.tenants), SourceId(d, t))
         == Some(VersionId(c.versions))
  {
    hide DomainName;
    hide TenantId;
    hide SourceId;
    var s := SourceOperations(c, d, t, c.versions);
    assert s[|s| - 1] == SourceOperation(c, d, t, c.versions - 1);
    assert VersionId(1) == "v1";
  }

  lemma {:induction false} TypesEndAtLastVersion(c: Config, d: nat, types: nat, t: NodeType)
    requires Accepted(c) && types <= 10
    ensures LastSet(TypeOperations(c, d, types), DomainName(d), TenantId(d, c.tenants), SourceId(d, t))
         == if t < types then Some(VersionId(c.versions)) else None
  {
    hide DomainName;
    hide TenantId;
    hide SourceId;
    hide LastSet;
    if types > 0 {
      var u: NodeType := types - 1;
      var s := SourceOperations(c, d, u, c.versions);
      TypesEndAtLastVersion(c, d, u, t);
      LastSetAppend(TypeOperations(c, d, u), s, DomainName(d), TenantId(d, c.tenants), SourceId(d, t));
      if u == t {
        SourceEndsAtLastVersion(c, d, t);
      } else {
        if SourceId(d, u) == SourceId(d, t) { SourceIdInjective(d, u, d, t); }
        LastSetNone(s, DomainName(d), TenantId(d, c.tenants), SourceId(d, t));
      }
    } else {
      LastSetNone([], DomainName(d), TenantId(d, c.tenants), SourceId(d, t));
    }
  }

  lemma {:induction false} OperationsEndAtLastVersion(c: Config, domains: nat, d: nat, t: NodeType)
    requires Accepted(c)
    ensures LastSet(Operations(c, domains), DomainName(d), TenantId(d, c.tenants), SourceId(d, t))
         == if d < domains then Some(VersionId(c.versions)) else None
  {
    hide DomainName;
    hide TenantId;
    hide SourceId;
    hide LastSet;
    hide TypeOperations;
    var domain, tenant, source := DomainName(d), TenantId(d, c.tenants), SourceId(d, t);
    if domains == 0 {
      LastSetNone([], domain, tenant, source);
    } else {
      var e := domains - 1;
      OperationsEndAtLastVersion(c, e, d, t);
      LastSetAppend(Operations(c, e), TypeOperations(c, e, 10) + [Deletion(c, e)], domain, tenant, source);
      LastSetAppend(TypeOperations(c, e, 10), [Deletion(c, e)], domain, tenant, source);
      LastSetNone([Deletion(c, e)], domain, tenant, source);
      if e == d {
        TypesEndAtLastVersion(c, d, 10, t);
      } else {
        forall o | o in TypeOperations(c, e, 10) ensures !Applies(o, domain, tenant) {
          TypeOperationMembers(c, e, 10, o);
          AppliesToItsDomain(c, o, e, d);
        }
        LastSetNone(TypeOperations(c, e, 10), domain, tenant, source);
      }
    }
  }

  // --------------------------------------------------------------------------------- edges

  lemma FindsOwnNodes(c: Config, body: Bodies, d: nat, a: NodeAddress)
    requires Accepted(c) && d < c.domains && Enumerated(c, a)
    ensures FindNode(Rows(body, DomainAddresses(c, d, c.versions)), ChunkOf(a))
         == if a.domain == d then Some(Row(body, a)) else None
  {
    hide DomainAddresses;
    hide ChunkOf;
    hide FindNode;
    var mine := DomainAddresses(c, d, c.versions);
    var rows := Rows(body, mine);
    DomainMembers(c, d, c.versions, a);
    if a.domain == d {
      var i :| 0 <= i < |mine| && mine[i] == a;
      assert rows[i] == Row(body, a);
      DomainDistinct(c, d, c.versions);
      ChunksDiffer(body, mine);
      FoundIsUnique(rows, Row(body, a));
    } else {
      FindNodeFinds(rows, ChunkOf(a));
      forall row | row in rows ensures row.chunk != ChunkOf(a) {
        var i :| 0 <= i < |rows| && rows[i] == row;
        if ChunkOf(mine[i]) == ChunkOf(a) { ChunkNamesAddress(mine[i], a); }
      }
    }
  }

  lemma EdgeInReader(c: Config, body: Bodies, d: nat, e: Edge)
    requires Accepted(c) && d < c.domains && IsEdge(c, e)
    ensures var rows, r, tenant := Rows(body, DomainAddresses(c, d, c.versions)), EdgeRecordOf(c, e), TenantId(d, c.tenants);
            && (Starts(rows, r, tenant) <==> e.from.domain == d)
            && (Inside(rows, r, tenant) <==> e.from.domain == d && !IsCross(c, e))
            && (Inside(rows, r, tenant) ==> EndsMatch(rows, r))
  {
    hide DomainAddresses;
    hide FindNode;
    hide TenantId;
    hide ChunkOf;
    hide SourceOf;
    hide VersionId;
    hide IsEdge;
    hide IsCross;
    hide Enumerated;
    EndsAreEnumerated(c, e);
    CrossLeavesDomain(c, e);
    FindsOwnNodes(c, body, d, e.from);
    FindsOwnNodes(c, body, d, e.to);
  }

  /** Domain `d` has an edge to another domain. */
  predicate Linked(c: Config, d: nat)
    requires Accepted(c)
  {
    c.maxEdges >= 6 && CrossDomainTarget(d, c.domains, c.tenants).Some?
  }

  lemma EdgesFitExactly(c: Config, body: Bodies, d: nat, scope: Scope)
    requires Accepted(c) && d < c.domains
    ensures (forall r | r in EdgeRecords(c, Edges(c, c.domains)) ::
               EdgeFits(Rows(body, DomainAddresses(c, d, c.versions)), r, TenantId(d, c.tenants), scope))
            <==> scope.Internal? || !Linked(c, d)
  {
    hide DomainAddresses;
    hide Edges;
    hide Starts;
    hide Inside;
    hide EndsMatch;
    hide EdgeRecordOf;
    hide TenantId;
    hide IsEdge;
    hide IsCross;
    var edges, rows, tenant := Edges(c, c.domains), Rows(body, DomainAddresses(c, d, c.versions)), TenantId(d, c.tenants);
    var records := EdgeRecords(c, edges);
    if scope.Complete? && Linked(c, d) {
      var e := TheCrossEdge(c, d);
      EdgeMembers(c, c.domains, e);
      EdgeInReader(c, body, d, e);
      var i :| 0 <= i < |edges| && edges[i] == e;
      assert records[i] == EdgeRecordOf(c, e);
      StartsWithoutEnding(rows, EdgeRecordOf(c, e), tenant);
    } else {
      forall r | r in records ensures EdgeFits(rows, r, tenant, scope) {
        var i :| 0 <= i < |records| && records[i] == r;
        assert edges[i] in edges;
        EdgeMembers(c, c.domains, edges[i]);
        EdgeInReader(c, body, d, edges[i]);
        if IsCross(c, edges[i]) && edges[i].from.domain == d { CrossMeansLinked(c, edges[i]); }
      }
    }
  }

  lemma StartsWithoutEnding(rows: seq<NodeRow>, r: EdgeRecord, tenant: string)
    requires Starts(rows, r, tenant) && !Inside(rows, r, tenant)
    ensures !EdgeFits(rows, r, tenant, Complete)
  {
  }

  lemma TheCrossEdge(c: Config, d: nat) returns (e: Edge)
    requires Accepted(c) && d < c.domains && Linked(c, d)
    ensures IsEdge(c, e) && IsCross(c, e) && e.from.domain == d
  {
    e := CrossEdge(c, d, 1)[0];
  }

  lemma CrossMeansLinked(c: Config, e: Edge)
    requires Accepted(c) && IsCross(c, e)
    ensures Linked(c, e.from.domain)
  {
  }

  lemma RecordNamesEdge(c: Config, e: Edge, f: Edge)
    requires Accepted(c) && EdgeRowOf(EdgeRecordOf(c, e)) == EdgeRowOf(EdgeRecordOf(c, f))
    ensures e == f
  {
    hide ChunkOf;
    ChunkNamesAddress(e.from, f.from);
    ChunkNamesAddress(e.to, f.to);
  }

  lemma {:induction false} InsideRowsDiffer(nodes: seq<NodeRow>, es: seq<EdgeRecord>, tenant: string)
    requires forall i, j :: 0 <= i < j < |es| ==> EdgeRowOf(es[i]) != EdgeRowOf(es[j])
    ensures NoRepeat(InsideRows(nodes, es, tenant))
  {
    hide EdgeRowOf;
    hide Inside;
    hide NoRepeat;
    if es == [] {
      NothingRepeats<EdgeRow>();
    } else {
      var first, rest := EdgeRowOf(es[0]), InsideRows(nodes, es[1..], tenant);
      InsideRowsDiffer(nodes, es[1..], tenant);
      if Inside(nodes, es[0], tenant) {
        InsideRowsHold(nodes, es[1..], tenant, first);
        OneDoesNotRepeat(first);
        NoRepeatAppend([first], rest);
      } else {
        assert InsideRows(nodes, es, tenant) == rest;
      }
    }
  }

  lemma NothingRepeats<T>()
    ensures NoRepeat<T>([])
  {
  }

  lemma OneDoesNotRepeat<T>(x: T)
    ensures NoRepeat([x])
  {
  }

  lemma GeneratedEdgesDiffer(c: Config, nodes: seq<NodeRow>, tenant: string)
    requires Accepted(c)
    ensures NoRepeat(InsideRows(nodes, EdgeRecords(c, Edges(c, c.domains)), tenant))
  {
    hide Edges;
    hide EdgeRecordOf;
    var edges := Edges(c, c.domains);
    var records := EdgeRecords(c, edges);
    EdgesDistinct(c, c.domains);
    forall i, j | 0 <= i < j < |records| ensures EdgeRowOf(records[i]) != EdgeRowOf(records[j]) {
      if EdgeRowOf(records[i]) == EdgeRowOf(records[j]) { RecordNamesEdge(c, edges[i], edges[j]); }
    }
    InsideRowsDiffer(nodes, records, tenant);
  }

  // ------------------------------------------------------------------------- the whole file

  ghost predicate IsVersion(c: Config, d: nat, key: SourceVersion)
    requires Accepted(c)
  {
    exists u: NodeType, v: nat :: 1 <= v <= c.versions && key == (SourceId(d, u), VersionId(v))
  }

  /** Each source has all versions, numbered in order. */
  ghost predicate HoldsVersions(c: Config, d: nat, order: map<SourceVersion, nat>)
    requires Accepted(c)
  {
    && (forall key :: key in order <==> IsVersion(c, d, key))
    && (forall u: NodeType, v: nat | 1 <= v <= c.versions ::
          (SourceId(d, u), VersionId(v)) in order && order[(SourceId(d, u), VersionId(v))] == v - 1)
  }

  /** Each source points at its last version. */
  ghost predicate HoldsCurrent(c: Config, d: nat, current: map<string, string>)
    requires Accepted(c)
  {
    forall u: NodeType :: SourceId(d, u) in current && current[SourceId(d, u)] == VersionId(c.versions)
  }

  ghost predicate IsInnerRow(c: Config, d: nat, row: EdgeRow)
    requires Accepted(c)
  {
    exists e :: IsEdge(c, e) && !IsCross(c, e) && e.from.domain == d && row == EdgeRowOf(EdgeRecordOf(c, e))
  }

  /** What the reader holds for one generated domain. */
  ghost predicate HoldsDomain(c: Config, body: Bodies, d: nat, t: Tables)
    requires Accepted(c) && d < c.domains
  {
    && t.nodes == Rows(body, DomainAddresses(c, d, c.versions))
    && HoldsVersions(c, d, t.order) && HoldsCurrent(c, d, t.current)
    && t.deletions == {SourceId(d, CONFIG)}
    && (forall row :: row in t.relationships <==> IsInnerRow(c, d, row))
  }

  lemma DeletionsAreConfig(c: Config, d: nat, found: set<string>)
    requires Accepted(c) && d < c.domains
    requires found == set o | o in Operations(c, c.domains) && Applies(o, DomainName(d),
          TenantId(d, c.tenants)) && o.operation.DropSource? :: o.source
    ensures found == {SourceId(d, CONFIG)}
  {
    hide Operations;
    hide DomainName;
    hide TenantId;
    hide SourceId;
    hide IsOperation;
    DeletionIsThere(c, c.domains, d);
    assert Applies(Deletion(c, d), DomainName(d), TenantId(d, c.tenants));
    forall s | s in found ensures s == SourceId(d, CONFIG) {
      var o :| o in Operations(c, c.domains) && Applies(o, DomainName(d),
            TenantId(d, c.tenants)) && o.operation.DropSource? && o.source == s;
      var e := OperationMembers(c, c.domains, o);
      AppliesToItsDomain(c, o, e, d);
    }
  }

  lemma InnerRowsOfDomain(c: Config, body: Bodies, d: nat, row: EdgeRow)
    requires Accepted(c) && d < c.domains
    ensures row in InsideRows(Rows(body, DomainAddresses(c, d, c.versions)), EdgeRecords(c, Edges(c, c.domains)), TenantId(d, c.tenants)) <==>
              IsInnerRow(c, d, row)
  {
    hide DomainAddresses;
    hide Edges;
    hide EdgeRecordOf;
    hide EdgeRowOf;
    hide TenantId;
    hide IsEdge;
    hide IsCross;
    hide Inside;
    hide Starts;
    hide EndsMatch;
    var rows, edges, tenant := Rows(body, DomainAddresses(c, d, c.versions)), Edges(c, c.domains), TenantId(d, c.tenants);
    var records := EdgeRecords(c, edges);
    InsideRowsHold(rows, records, tenant, row);
    if r :| r in records && Inside(rows, r, tenant) && EdgeRowOf(r) == row {
      var i :| 0 <= i < |records| && records[i] == r;
      assert edges[i] in edges;
      EdgeMembers(c, c.domains, edges[i]);
      EdgeInReader(c, body, d, edges[i]);
    }
    if e :| IsEdge(c, e) && !IsCross(c, e) && e.from.domain == d && row == EdgeRowOf(EdgeRecordOf(c, e)) {
      EdgeIsPlaced(c, e);
      EdgeMembers(c, c.domains, e);
      EdgeInReader(c, body, d, e);
      var i :| 0 <= i < |edges| && edges[i] == e;
      assert records[i] == EdgeRecordOf(c, e);
    }
  }

  lemma VersionsLoad(c: Config, body: Bodies, d: nat)
    requires Accepted(c) && d < c.domains
    ensures FullyRead(c, body, d).Ok? && HoldsVersions(c, d, FullyRead(c, body, d).value.order)
  {
    hide FullyRead;
    hide SourceId;
    hide VersionId;
    hide Numbered;
    hide DomainAddresses;
    hide KeysOf;
    NodesLoad(c, body, d);
    var order := FullyRead(c, body, d).value.order;
    forall key ensures key in order <==> IsVersion(c, d, key) {
      KeysOfRows(c, body, d, c.versions, key);
    }
    hide IsVersion;
    forall u: NodeType, v: nat | 1 <= v <= c.versions
      ensures (SourceId(d, u), VersionId(v)) in order && order[(SourceId(d, u), VersionId(v))] == v - 1
    {
      NumberIsAtLeast(c, body, d, u, v);
      NumberIsAtMost(c, body, d, u, v);
    }
  }

  /** Every stored version is one of a type's, numbered one less than it is named. */
  lemma VersionOfKey(c: Config, d: nat, order: map<SourceVersion, nat>, key: SourceVersion) returns (u: NodeType, v: nat)
    requires Accepted(c) && HoldsVersions(c, d, order) && key in order
    ensures 1 <= v <= c.versions && key == (SourceId(d, u), VersionId(v)) && order[key] == v - 1
  {
    hide SourceId;
    hide VersionId;
    assert IsVersion(c, d, key);
    u, v :| 1 <= v <= c.versions && key == (SourceId(d, u), VersionId(v));
  }

  lemma OperationsLoad(c: Config, body: Bodies, d: nat, t: Tables)
    requires Accepted(c) && d < c.domains && t.order.Keys == KeysOf(Rows(body, DomainAddresses(c, d, c.versions)))
    requires t.current == map[] && t.deletions == {}
    ensures var r := LoadOperations(t, Operations(c, c.domains), DomainName(d), TenantId(d, c.tenants));
            && r.Ok? && SameButOperations(t, r.value)
            && HoldsCurrent(c, d, r.value.current) && r.value.deletions == {SourceId(d, CONFIG)}
  {
    hide LoadOperations;
    hide DomainName;
    hide TenantId;
    hide SourceId;
    hide VersionId;
    hide Operations;
    hide DomainAddresses;
    hide KeysOf;
    hide Known;
    hide LastSet;
    hide Applies;
    var operations, domain, tenant := Operations(c, c.domains), DomainName(d), TenantId(d, c.tenants);
    OperationsExactly(t, operations, domain, tenant);
    OperationsAreKnown(c, body, d, t.order);
    var r := LoadOperations(t, operations, domain, tenant).value;
    forall u: NodeType ensures SourceId(d, u) in r.current && r.current[SourceId(d, u)] == VersionId(c.versions) {
      OperationsEndAtLastVersion(c, c.domains, d, u);
    }
    DeletionsAreConfig(c, d, r.deletions);
  }

  lemma EdgesLoad(c: Config, body: Bodies, d: nat, t: Tables, scope: Scope)
    requires Accepted(c) && d < c.domains && t.nodes == Rows(body, DomainAddresses(c, d, c.versions)) && t.relationships == []
    ensures var r := LoadEdges(t, EdgeRecords(c, Edges(c, c.domains)), TenantId(d, c.tenants), scope);
            && (r.Ok? <==> scope.Internal? || !Linked(c, d))
            && (r.Ok? ==> SameButEdges(t, r.value) && forall row :: row in r.value.relationships <==> IsInnerRow(c, d, row))
  {
    hide LoadEdges;
    hide TenantId;
    hide Edges;
    hide DomainAddresses;
    hide Linked;
    hide EdgeRecords;
    hide InsideRows;
    hide EdgeFits;
    hide NoRepeat;
    hide IsInnerRow;
    var edges, tenant := EdgeRecords(c, Edges(c, c.domains)), TenantId(d, c.tenants);
    var rows := InsideRows(t.nodes, edges, tenant);
    NothingRepeats<EdgeRow>();
    EdgesExactly(t, edges, tenant, scope);
    EdgesFitExactly(c, body, d, scope);
    GeneratedEdgesDiffer(c, t.nodes, tenant);
    assert [] + rows == rows;
    forall row ensures row in rows <==> IsInnerRow(c, d, row) { InnerRowsOfDomain(c, body, d, row); }
  }

  lemma DomainIsComplete(c: Config, d: nat, t: Tables)
    requires Accepted(c) && HoldsVersions(c, d, t.order) && HoldsCurrent(c, d, t.current)
    ensures Checked(t) == Ok(t)
  {
    hide SourceId;
    hide VersionId;
    hide IsVersion;
    var some: NodeType := 0;
    assert (SourceId(d, some), VersionId(1)) in t.order;
    hide HoldsVersions;
    forall k | k in t.order ensures k.0 in t.current { var u, v := VersionOfKey(c, d, t.order, k); }
  }

  /** The reader accepts every domain of every generated dataset in internal scope, and in complete
      scope exactly those domains that have no edge to another one. Every source has its versions
      numbered in order and its last version current. */
  lemma ReaderAcceptsGenerated(c: Config, body: Bodies, d: nat, scope: Scope)
    requires Accepted(c) && d < c.domains
    ensures var r := Prepared(GeneratedFiles(c, body), DomainName(d), TenantId(d, c.tenants), scope);
            && (r.Ok? <==> scope.Internal? || !Linked(c, d))
            && (r.Ok? ==> HoldsDomain(c, body, d, r.value))
  {
    hide LoadNodes;
    hide LoadOperations;
    hide LoadEdges;
    hide DomainName;
    hide TenantId;
    hide SourceId;
    hide Operations;
    hide Edges;
    hide Addresses;
    hide DomainAddresses;
    hide Linked;
    hide Numbered;
    hide KeysOf;
    hide NodeRecords;
    hide EdgeRecords;
    hide HoldsVersions;
    hide HoldsCurrent;
    hide IsInnerRow;
    hide Checked;
    var files, domain, tenant := GeneratedFiles(c, body), DomainName(d), TenantId(d, c.tenants);
    NodesLoad(c, body, d);
    VersionsLoad(c, body, d);
    var nodes := FullyRead(c, body, d).value;
    OperationsLoad(c, body, d, nodes);
    var operations := LoadOperations(nodes, files.operations, domain, tenant).value;
    EdgesLoad(c, body, d, operations, scope);
    var edges := LoadEdges(operations, files.edges, tenant, scope);
    if edges.Ok? { DomainIsComplete(c, d, edges.value); }
  }
}
