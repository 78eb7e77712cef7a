/** What the reader hands to the import: commands in the order of sources and versions, and exactly
    when the dataset made of them can be imported.
 */
module ReaderCommands {
  import opened Outcomes
  import opened Records
  import opened Sequences
  import opened Ordering
  import opened DatasetReader
  import opened ReaderProperties
  import opened IngestionStore
  import opened DatasetImport
  import Security

  datatype VersionRow = VersionRow(source: string, number: nat, version: string)

  /** By source, then by number; the version only makes the order total. */
  predicate VersionLess(a: VersionRow, b: VersionRow) {
    || StringLess(a.source, b.source)
    || (a.source == b.source && (a.number < b.number || (a.number == b.number && StringLess(a.version, b.version))))
  }

  lemma VersionOrder()
    ensures StrictTotal(VersionLess)
  {
    StringOrder();
  }

  function AllVersions(t: Tables): set<VersionRow> { set k | k in t.order :: VersionRow(k.0, t.order[k], k.1) }

  function CurrentVersions(t: Tables): set<VersionRow> {
    set k | k in t.order && k.0 in t.current && t.current[k.0] == k.1 :: VersionRow(k.0, t.order[k], k.1)
  }

  function ChunkOfRow(row: NodeRow): Chunk { Chunk(row.chunk, row.body, row.acl, row.security) }

  function ChunksOf(nodes: seq<NodeRow>, source: string, version: string): seq<Chunk> {
    if nodes == [] then []
    else (if nodes[0].source == source && nodes[0].version == version then [ChunkOfRow(nodes[0])] else [])
         + ChunksOf(nodes[1..], source, version)
  }

  function RelationshipOf(row: EdgeRow): Relationship {
    Relationship(Node(row.fromSource, row.fromChunk), Node(row.toSource, row.toChunk), row.kind)
  }

  function RelationshipsOf(rows: seq<EdgeRow>, source: string, version: string): seq<Relationship> {
    if rows == [] then []
    else (if rows[0].ownerSource == source && rows[0].ownerVersion == version then [RelationshipOf(rows[0])] else [])
         + RelationshipsOf(rows[1..], source, version)
  }

  /** `_command`. */
  function CommandOf(t: Tables, domain: string, tenant: string, row: VersionRow, related: bool): Command {
    Command("dataset:" + domain + ":" + tenant + ":" + row.source + ":" + row.version,
            SourceKey(tenant, domain, row.source), row.version, "", ChunksOf(t.nodes, row.source, row.version),
            if related then RelationshipsOf(t.relationships, row.source, row.version) else [])
  }

  function CommandsOf(t: Tables, domain: string, tenant: string, rows: seq<VersionRow>, related: bool): (r: seq<Command>)
    ensures |r| == |rows|
  {
    seq(|rows|, i requires 0 <= i < |rows| => CommandOf(t, domain, tenant, rows[i], related))
  }

  ghost function InOrder(rows: set<VersionRow>): (r: seq<VersionRow>)
    ensures forall row :: row in r <==> row in rows
  {
    VersionOrder();
    Sorted(VersionLess, rows)
  }

  ghost function SourceCommandsOf(t: Tables, domain: string, tenant: string): seq<Command> {
    CommandsOf(t, domain, tenant, InOrder(AllVersions(t)), false)
  }

  ghost function RelationshipCommandsOf(t: Tables, domain: string, tenant: string): seq<Command> {
    CommandsOf(t, domain, tenant, InOrder(CurrentVersions(t)), true)
  }

  /** The totals that `prepare` reports. */
  function RequestOf(t: Tables, profile: Security.DomainProfile, hash: string): ImportRequest {
    ImportRequest(profile.tenant, profile.name, hash, |t.order|, |t.nodes|, |t.relationships|, |t.deletions|)
  }

  /** What the reader hands to the import service of a domain. */
  ghost function DatasetOf(t: Tables, hash: string, profile: Security.DomainProfile): Dataset {
    StringOrder();
    var deletions := Sorted(StringLess, t.deletions);
    Dataset(profile, RequestOf(t, profile, hash),
            SourceCommandsOf(t, profile.name, profile.tenant), RelationshipCommandsOf(t, profile.name, profile.tenant),
            seq(|deletions|, i requires 0 <= i < |deletions| => SourceKey(profile.tenant, profile.name, deletions[i])))
  }

  /** `source_commands`. */
  method SourceCommands(w: Workspace, domain: string, tenant: string) returns (r: Result<seq<Command>, ReaderError>)
    ensures r == if w.prepared then Ok(SourceCommandsOf(w.Value(), domain, tenant)) else Err(NotPrepared)
  {
    if !w.prepared { return Err(NotPrepared); }
    VersionOrder();
    var t := Tables(w.order, w.nodes, w.current, w.deletions, w.relationships);
    var rows := SortedList(VersionLess, set k | k in w.order :: VersionRow(k.0, w.order[k], k.1));
    var commands := [];
    for i := 0 to |rows|
      invariant commands == CommandsOf(t, domain, tenant, rows[..i], false)
    {
      commands := commands + [CommandOf(t, domain, tenant, rows[i], false)];
    }
    assert rows[..|rows|] == rows;
    r := Ok(commands);
  }

  /** `relationship_commands`. */
  method RelationshipCommands(w: Workspace, domain: string, tenant: string) returns (r: Result<seq<Command>, ReaderError>)
    ensures r == if w.prepared then Ok(RelationshipCommandsOf(w.Value(), domain, tenant)) else Err(NotPrepared)
  {
    if !w.prepared { return Err(NotPrepared); }
    VersionOrder();
    var t := Tables(w.order, w.nodes, w.current, w.deletions, w.relationships);
    var rows := SortedList(VersionLess,
          set k | k in w.order && k.0 in w.current && w.current[k.0] == k.1 :: VersionRow(k.0, w.order[k], k.1));
    var commands := [];
    for i := 0 to |rows|
      invariant commands == CommandsOf(t, domain, tenant, rows[..i], true)
    {
      commands := commands + [CommandOf(t, domain, tenant, rows[i], true)];
    }
    assert rows[..|rows|] == rows;
    r := Ok(commands);
  }

  // --------------------------------------------------------------------------- sound tables

  /** A stored relationship starts at a node of its owner and ends at a node of its target source. */
  ghost predicate EndsAreRows(nodes: seq<NodeRow>, row: EdgeRow) {
    && IsNodeOf(nodes, row.fromChunk, row.ownerSource)
    && FindNode(nodes, row.fromChunk).value.version == row.ownerVersion
    && IsNodeOf(nodes, row.toChunk, row.toSource)
  }

  ghost predicate IsNodeOf(nodes: seq<NodeRow>, chunk: string, source: string) {
    FindNode(nodes, chunk).Some? && FindNode(nodes, chunk).value.source == source
  }

  ghost predicate Sound(t: Tables) {
    && NoRepeat(Chunks(t.nodes)) && Numbered(t.order) && t.order.Keys == KeysOf(t.nodes)
    && forall row | row in t.relationships :: EndsAreRows(t.nodes, row)
  }

  /** Every source has a current version, and the nodes have it. */
  predicate Settled(t: Tables) {
    EverySourceIsCurrent(t) && forall s | s in t.current :: (s, t.current[s]) in t.order
  }

  lemma {:induction false} OperationsSetKnownVersions(t: Tables, rs: seq<OperationRecord>, domain: string, tenant: string)
    requires LoadOperations(t, rs, domain, tenant).Ok? && forall s | s in t.current :: (s, t.current[s]) in t.order
    ensures var r := LoadOperations(t, rs, domain, tenant).value; forall s | s in r.current :: (s, r.current[s]) in r.order
    decreases |rs|
  {
    if rs != [] {
      if rs[0].domain != domain || rs[0].tenant != tenant {
        OperationsSetKnownVersions(t, rs[1..], domain, tenant);
      } else {
        OperationsSetKnownVersions(ApplyOperation(t, rs[0]).value, rs[1..], domain, tenant);
      }
    }
  }

  lemma PreparedIsSettled(files: Files, domain: string, tenant: string, scope: Scope)
    requires Prepared(files, domain, tenant, scope).Ok?
    ensures Settled(Prepared(files, domain, tenant, scope).value)
  {
    hide LoadNodes;
    hide LoadOperations;
    hide LoadEdges;
    var nodes := LoadNodes(NO_TABLES, files.nodes, domain, tenant).value;
    assert NoRepeat(Chunks([])) && NoRepeat<EdgeRow>([]);
    NodesExactly(NO_TABLES, files.nodes, domain, tenant);
    OperationsSetKnownVersions(nodes, files.operations, domain, tenant);
    var operations := LoadOperations(nodes, files.operations, domain, tenant).value;
    OperationsKeepTables(nodes, files.operations, domain, tenant);
    EdgesExactly(operations, files.edges, tenant, scope);
  }

  lemma EmptyIsNumbered()
    ensures Numbered(map[]) && KeysOf([]) == {}
  {
  }

  lemma {:induction false} OperationsKeepTables(t: Tables, rs: seq<OperationRecord>, domain: string, tenant: string)
    requires LoadOperations(t, rs, domain, tenant).Ok?
    ensures SameButOperations(t, LoadOperations(t, rs, domain, tenant).value)
    decreases |rs|
  {
    if rs != [] {
      if rs[0].domain != domain || rs[0].tenant != tenant {
        OperationsKeepTables(t, rs[1..], domain, tenant);
      } else {
        OperationsKeepTables(ApplyOperation(t, rs[0]).value, rs[1..], domain, tenant);
      }
    }
  }

  /** Whatever the files are: tables that were accepted are sound. */
  lemma PreparedIsSound(files: Files, domain: string, tenant: string, scope: Scope)
    requires Prepared(files, domain, tenant, scope).Ok?
    ensures Sound(Prepared(files, domain, tenant, scope).value)
  {
    hide LoadNodes;
    hide LoadOperations;
    hide LoadEdges;
    hide Numbered;
    hide KeysOf;
    hide EndsAreRows;
    var nodes := LoadNodes(NO_TABLES, files.nodes, domain, tenant).value;
    assert NoRepeat(Chunks([])) && NoRepeat<EdgeRow>([]);
    EmptyIsNumbered();
    NodesExactly(NO_TABLES, files.nodes, domain, tenant);
    VersionsExactly(NO_TABLES, files.nodes, domain, tenant);
    NumbersFollowTheFile(NO_TABLES, files.nodes, domain, tenant);
    var operations := LoadOperations(nodes, files.operations, domain, tenant).value;
    OperationsKeepTables(nodes, files.operations, domain, tenant);
    EdgesExactly(operations, files.edges, tenant, scope);
    var t := LoadEdges(operations, files.edges, tenant, scope).value;
    forall row | row in t.relationships ensures EndsAreRows(t.nodes, row) {
      InsideRowsHold(operations.nodes, files.edges, tenant, row);
      var e :| e in files.edges && Inside(operations.nodes, e, tenant) && EdgeRowOf(e) == row;
      assert EdgeFits(operations.nodes, e, tenant, scope);
      EndsOfEdge(operations.nodes, e, tenant);
    }
  }

  lemma EndsOfEdge(nodes: seq<NodeRow>, e: EdgeRecord, tenant: string)
    requires Inside(nodes, e, tenant) && EndsMatch(nodes, e)
    ensures EndsAreRows(nodes, EdgeRowOf(e))
  {
    hide FindNode;
  }

  // ----------------------------------------------------------------------------- commands

  lemma {:induction false} ChunksOfHold(nodes: seq<NodeRow>, source: string, version: string, x: Chunk)
    ensures x in ChunksOf(nodes, source, version) <==>
              exists row :: row in nodes && row.source == source && row.version == version && x == ChunkOfRow(row)
  {
    if nodes != [] { ChunksOfHold(nodes[1..], source, version, x); }
  }

  lemma RowOfChunk(nodes: seq<NodeRow>, source: string, version: string, x: Chunk) returns (i: nat)
    requires x in ChunksOf(nodes, source, version)
    ensures i < |nodes| && nodes[i].chunk == x.id
  {
    ChunksOfHold(nodes, source, version, x);
    var row :| row in nodes && row.source == source && row.version == version && x == ChunkOfRow(row);
    i :| 0 <= i < |nodes| && nodes[i] == row;
  }

  lemma FirstChunkDiffers(nodes: seq<NodeRow>)
    requires nodes != [] && NoRepeat(Chunks(nodes))
    ensures NoRepeat(Chunks(nodes[1..])) && nodes[0].chunk !in Chunks(nodes[1..])
  {
    var all, rest := Chunks(nodes), Chunks(nodes[1..]);
    assert all[0] == nodes[0].chunk;
    forall i | 0 <= i < |rest| ensures rest[i] == all[i + 1] && rest[i] != all[0] { assert all[i + 1] != all[0]; }
  }

  lemma {:induction false} ChunkIdsAreUnique(nodes: seq<NodeRow>, source: string, version: string)
    requires NoRepeat(Chunks(nodes))
    ensures UniqueChunkIds(ChunksOf(nodes, source, version))
  {
    if nodes != [] {
      var tail := nodes[1..];
      FirstChunkDiffers(nodes);
      ChunkIdsAreUnique(tail, source, version);
      hide NoRepeat;
      forall x | x in ChunksOf(tail, source, version) ensures x.id != nodes[0].chunk {
        var i := RowOfChunk(tail, source, version, x);
        assert Chunks(tail)[i] == x.id;
      }
    }
  }

  lemma {:induction false} RelationshipsOfHold(rows: seq<EdgeRow>, source: string, version: string, x: Relationship)
    ensures x in RelationshipsOf(rows, source, version) <==>
              exists row :: row in rows && row.ownerSource == source && row.ownerVersion == version && x == RelationshipOf(row)
  {
    if rows != [] { RelationshipsOfHold(rows[1..], source, version, x); }
  }

  lemma VersionHasChunks(t: Tables, row: VersionRow)
    requires Sound(t) && row in AllVersions(t)
    ensures ChunksOf(t.nodes, row.source, row.version) != []
  {
    var node :| node in t.nodes && KeyOfRow(node) == (row.source, row.version);
    ChunksOfHold(t.nodes, row.source, row.version, ChunkOfRow(node));
  }

  /** The condition that the command's constructor puts on a stored relationship. */
  predicate FitsOwner(nodes: seq<NodeRow>, row: EdgeRow) {
    && row.fromSource == row.ownerSource
    && (row.toSource == row.ownerSource ==>
          FindNode(nodes, row.toChunk).Some? && FindNode(nodes, row.toChunk).value.version == row.ownerVersion)
  }

  lemma NodeIsChunkOf(nodes: seq<NodeRow>, chunk: string, source: string, version: string)
    requires NoRepeat(Chunks(nodes)) && FindNode(nodes, chunk).Some?
    ensures (exists x :: x in ChunksOf(nodes, source, version) && x.id == chunk) <==>
              KeyOfRow(FindNode(nodes, chunk).value) == (source, version)
  {
    hide FindNode;
    hide Chunks;
    hide NoRepeat;
    hide ChunksOf;
    FindNodeFinds(nodes, chunk);
    var node := FindNode(nodes, chunk).value;
    ChunksOfHold(nodes, source, version, ChunkOfRow(node));
    if x :| x in ChunksOf(nodes, source, version) && x.id == chunk {
      ChunksOfHold(nodes, source, version, x);
      var row :| row in nodes && row.source == source && row.version == version && x == ChunkOfRow(row);
      FoundIsUnique(nodes, row);
    }
  }

  /** A command can be made of a version's rows exactly when each relationship that it owns fits. */
  lemma CommandsAreWellFormed(t: Tables, domain: string, tenant: string, row: VersionRow)
    requires Sound(t) && row in AllVersions(t)
    ensures WellFormed(CommandOf(t, domain, tenant, row, false))
    ensures WellFormed(CommandOf(t, domain, tenant, row, true)) <==>
              forall e | e in t.relationships && e.ownerSource == row.source && e.ownerVersion == row.version :: FitsOwner(t.nodes, e)
  {
    hide FindNode;
    hide Chunks;
    hide NoRepeat;
    hide ChunksOf;
    hide RelationshipsOf;
    hide AllVersions;
    hide UniqueChunkIds;
    hide Numbered;
    hide KeysOf;
    var c := CommandOf(t, domain, tenant, row, true);
    VersionHasChunks(t, row);
    ChunkIdsAreUnique(t.nodes, row.source, row.version);
    forall e | e in t.relationships && e.ownerSource == row.source && e.ownerVersion == row.version
      ensures RelationshipOf(e) in c.relationships
      ensures (exists x :: x in c.chunks && x.id == e.fromChunk)
      ensures row.source == e.toSource ==>
                ((exists x :: x in c.chunks && x.id == e.toChunk) <==>
                          FindNode(t.nodes, e.toChunk).value.version == row.version)
    {
      RelationshipsOfHold(t.relationships, row.source, row.version, RelationshipOf(e));
      assert EndsAreRows(t.nodes, e);
      NodeIsChunkOf(t.nodes, e.fromChunk, row.source, row.version);
      NodeIsChunkOf(t.nodes, e.toChunk, row.source, row.version);
    }
    forall r | r in c.relationships
      ensures exists e :: e in t.relationships && e.ownerSource == row.source && e.ownerVersion == row.version && r == RelationshipOf(e)
    {
      RelationshipsOfHold(t.relationships, row.source, row.version, r);
    }
    if WellFormed(c) {
      forall e | e in t.relationships && e.ownerSource == row.source && e.ownerVersion == row.version ensures FitsOwner(t.nodes, e) {
        assert RelationshipOf(e) in c.relationships;
        assert EndsAreRows(t.nodes, e);
      }
    }
  }
}
