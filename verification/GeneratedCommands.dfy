/** From the plan of a dataset to the commands of its import: every node is staged with what was drawn
    for it, and every edge inside the domain is published with its last version.
 */
module GeneratedCommands {
  import opened Outcomes
  import opened DatasetReader
  import opened GeneratedDataset
  import opened GeneratedEdges
  import opened GeneratedReading
  import opened Generator
  import opened Identifiers
  import opened IngestionStore
  import opened ReaderCommands
  import opened ReaderRecords
  import Records
  import Security

  lemma NodeHasRecord(c: Config, body: Bodies, a: NodeAddress)
    requires Accepted(c) && a in Addresses(c, c.domains)
    ensures NodeRecordOf(c, body, a) in GeneratedFiles(c, body).nodes
  {
    hide NodeRecordOf;
    hide Addresses;
    var addresses := Addresses(c, c.domains);
    var records := GeneratedFiles(c, body).nodes;
    var i :| 0 <= i < |addresses| && addresses[i] == a;
    assert records == NodeRecords(c, body, addresses);
    assert records[i] == NodeRecordOf(c, body, a);
  }

  lemma EdgeHasRecord(c: Config, body: Bodies, e: Edge)
    requires Accepted(c) && e in Edges(c, c.domains)
    ensures EdgeRecordOf(c, e) in GeneratedFiles(c, body).edges
  {
    hide EdgeRecordOf;
    hide Edges;
    var edges := Edges(c, c.domains);
    var records := GeneratedFiles(c, body).edges;
    var i :| 0 <= i < |edges| && edges[i] == e;
    assert records == EdgeRecords(c, edges);
    assert records[i] == EdgeRecordOf(c, e);
  }

  lemma ToldChunk(chunks: seq<Chunk>, rs: seq<NodeRecord>, domain: string, tenant: string, source: string, version: string,
        at: seq<nat>, r: NodeRecord) returns (x: Chunk)
    requires ChunksTell(chunks, rs, domain, tenant, source, version, at)
    requires r in rs && BelongsTo(r, domain, tenant, source, version)
    ensures x in chunks && SameChunk(x, r)
  {
    hide SameChunk;
    hide BelongsTo;
    var i :| 0 <= i < |rs| && rs[i] == r;
    var k :| 0 <= k < |at| && at[k] == i;
    x := chunks[k];
  }

  /** Every node of the domain is a chunk of one command, under the names of its source, version and
      chunk, with the text and the access label that were drawn for it, and without a clearance. */
  lemma EveryNodeIsStaged(c: Config, body: Bodies, d: nat, scope: Scope, a: NodeAddress)
    requires Accepted(c) && d < c.domains && (scope.Internal? || !Linked(c, d))
    requires a in Addresses(c, c.domains) && a.domain == d
    ensures var read := Prepared(GeneratedFiles(c, body), DomainName(d), TenantId(d, c.tenants), scope);
            && read.Ok?
            && exists command, x ::
                 && command in SourceCommandsOf(read.value, DomainName(d), TenantId(d, c.tenants))
                 && command.source == Records.SourceKey(TenantId(d, c.tenants), DomainName(d), SourceId(d, a.nodeType))
                 && command.version == VersionId(a.version) && x in command.chunks
                 && x.id == ChunkId(d, a.nodeType, a.instance, a.version) && x.body == body(a).text
                 && x.acl == {body(a).access} && x.security == Security.Labels(None, {})
  {
    hide Prepared;
    hide GeneratedFiles;
    hide Linked;
    hide HoldsDomain;
    hide SourceCommandsOf;
    hide RelationshipCommandsOf;
    hide ChunksTell;
    hide SaysEdges;
    hide DomainName;
    hide TenantId;
    hide SourceId;
    hide ChunkId;
    hide Addresses;
    var files, domain, tenant := GeneratedFiles(c, body), DomainName(d), TenantId(d, c.tenants);
    ReaderAcceptsGenerated(c, body, d, scope);
    FilesBecomeCommands(files, domain, tenant, scope);
    NodeHasRecord(c, body, a);
    var r := NodeRecordOf(c, body, a);
    assert Selected(r, domain, tenant);
    var t := Prepared(files, domain, tenant, scope).value;
    var command :| command in SourceCommandsOf(t, domain, tenant) && command.source.source == r.source
                   && command.version == r.version;
    assert SaysRecords(command, files, domain, tenant);
    var at :| ChunksTell(command.chunks, files.nodes, domain, tenant, command.source.source, command.version, at);
    var x := ToldChunk(command.chunks, files.nodes, domain, tenant, r.source, r.version, at, r);
    assert command.source == Records.SourceKey(tenant, domain, r.source);
  }

  lemma CurrentHasCommand(t: Tables, domain: string, tenant: string, row: VersionRow)
    requires row in CurrentVersions(t)
    ensures CommandOf(t, domain, tenant, row, true) in RelationshipCommandsOf(t, domain, tenant)
  {
    hide CommandOf;
    var rows := InOrder(CurrentVersions(t));
    var i :| 0 <= i < |rows| && rows[i] == row;
    assert RelationshipCommandsOf(t, domain, tenant)[i] == CommandOf(t, domain, tenant, row, true);
  }

  lemma LastIsCurrent(c: Config, body: Bodies, d: nat, t: Tables, u: NodeType) returns (row: VersionRow)
    requires Accepted(c) && d < c.domains && HoldsDomain(c, body, d, t)
    ensures row in CurrentVersions(t) && row.source == SourceId(d, u) && row.version == VersionId(c.versions)
  {
    hide SourceId;
    hide VersionId;
    hide Rows;
    hide DomainAddresses;
    hide IsInnerRow;
    hide IsVersion;
    var key := (SourceId(d, u), VersionId(c.versions));
    assert key in t.order && key.0 in t.current && t.current[key.0] == key.1;
    row := VersionRow(key.0, t.order[key], key.1);
  }

  lemma CurrentIsPublished(c: Config, body: Bodies, d: nat, t: Tables, u: NodeType) returns (command: Command)
    requires Accepted(c) && d < c.domains && HoldsDomain(c, body, d, t)
    ensures command in RelationshipCommandsOf(t, DomainName(d), TenantId(d, c.tenants))
    ensures command.source == Records.SourceKey(TenantId(d, c.tenants), DomainName(d), SourceId(d, u))
    ensures command.version == VersionId(c.versions)
  {
    hide DomainName;
    hide TenantId;
    hide SourceId;
    hide VersionId;
    hide HoldsDomain;
    hide RelationshipCommandsOf;
    hide CurrentVersions;
    var row := LastIsCurrent(c, body, d, t, u);
    CurrentHasCommand(t, DomainName(d), TenantId(d, c.tenants), row);
    command := CommandOf(t, DomainName(d), TenantId(d, c.tenants), row, true);
  }

  /** Every edge inside the domain that belongs to the last version is a relationship of one command,
      from chunk to chunk and of the template's kind. */
  lemma EveryEdgeIsPublished(c: Config, body: Bodies, d: nat, scope: Scope, e: Edge)
    requires Accepted(c) && d < c.domains && (scope.Internal? || !Linked(c, d))
    requires e in Edges(c, c.domains) && e.from.domain == d && e.to.domain == d && e.from.version == c.versions
    ensures var read := Prepared(GeneratedFiles(c, body), DomainName(d), TenantId(d, c.tenants), scope);
            && read.Ok?
            && exists command, x ::
                 && command in RelationshipCommandsOf(read.value, DomainName(d), TenantId(d, c.tenants))
                 && command.source.source == SourceId(d, e.from.nodeType) && command.version == VersionId(c.versions)
                 && x in command.relationships && x.kind == e.kind
                 && x.from == Records.Node(SourceId(d, e.from.nodeType),
                                           ChunkId(d, e.from.nodeType, e.from.instance, e.from.version))
                 && x.to == Records.Node(SourceId(d, e.to.nodeType), ChunkId(d, e.to.nodeType, e.to.instance, e.to.version))
  {
    hide Prepared;
    hide GeneratedFiles;
    hide Linked;
    hide HoldsDomain;
    hide SourceCommandsOf;
    hide RelationshipCommandsOf;
    hide SaysRecords;
    hide DomainName;
    hide TenantId;
    hide SourceId;
    hide ChunkId;
    hide VersionId;
    hide Addresses;
    hide Edges;
    var files, domain, tenant := GeneratedFiles(c, body), DomainName(d), TenantId(d, c.tenants);
    ReaderAcceptsGenerated(c, body, d, scope);
    FilesBecomeCommands(files, domain, tenant, scope);
    var t := Prepared(files, domain, tenant, scope).value;
    var command := CurrentIsPublished(c, body, d, t, e.from.nodeType);
    EdgeHasRecord(c, body, e);
    EdgeEndsAreNodes(c, e);
    NodeHasRecord(c, body, e.from);
    NodeHasRecord(c, body, e.to);
    var record := EdgeRecordOf(c, e);
    assert Selected(NodeRecordOf(c, body, e.from), domain, tenant) && Selected(NodeRecordOf(c, body, e.to), domain, tenant);
    assert OwnedInside(record, files.nodes, domain, tenant, command.source.source, command.version);
    assert SaysEdges(command, files, domain, tenant);
    var x := Records.Relationship(
      Records.Node(record.fromSource, record.fromChunk), Records.Node(record.toSource, record.toChunk), record.kind);
    assert SameRelationship(x, record);
    assert x in command.relationships;
  }
}
