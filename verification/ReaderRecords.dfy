/** From the records of the files to the commands of an import: every selected record is told by
    exactly the commands it belongs to, field by field and in the order of the file.
 */
module ReaderRecords {
  import opened Outcomes
  import opened Records
  import opened Ordering
  import opened Sequences
  import opened DatasetReader
  import opened ReaderProperties
  import opened ReaderCommands
  import opened IngestionStore

  predicate Selected(r: NodeRecord, domain: string, tenant: string) { r.domain == domain && r.tenant == tenant }

  /** The record is one of this version. */
  predicate BelongsTo(r: NodeRecord, domain: string, tenant: string, source: string, version: string) {
    Selected(r, domain, tenant) && r.source == source && r.version == version
  }

  predicate SameChunk(x: Chunk, r: NodeRecord) {
    x.id == r.chunk && x.body == r.body && x.acl == r.acl && x.security == r.security
  }

  ghost predicate Ascending(at: seq<nat>, limit: nat) {
    && (forall k | 0 <= k < |at| :: at[k] < limit)
    && forall j, k | 0 <= j < k < |at| :: at[j] < at[k]
  }

  /** The chunks are the records of the version, at these places in the file. */
  ghost predicate ChunksTell(chunks: seq<Chunk>, rs: seq<NodeRecord>, domain: string, tenant: string, source: string,
        version: string, at: seq<nat>) {
    && Ascending(at, |rs|) && |at| == |chunks|
    && (forall k | 0 <= k < |at| :: BelongsTo(rs[at[k]], domain, tenant, source, version) && SameChunk(chunks[k], rs[at[k]]))
    && forall i | 0 <= i < |rs| && BelongsTo(rs[i], domain, tenant, source, version) :: i in at
  }

  function Shifted(at: seq<nat>): (r: seq<nat>)
    ensures |r| == |at| && forall k | 0 <= k < |at| :: r[k] == at[k] + 1
  {
    seq(|at|, k requires 0 <= k < |at| => at[k] + 1)
  }

  lemma ChunksOfFirst(rs: seq<NodeRecord>, domain: string, tenant: string, source: string, version: string)
    requires rs != []
    ensures ChunksOf(NodeRows(rs, domain, tenant), source, version) ==
            (if BelongsTo(rs[0], domain, tenant, source, version) then [ChunkOfRow(RowOf(rs[0]))] else [])
            + ChunksOf(NodeRows(rs[1..], domain, tenant), source, version)
  {
    var rows, rest := NodeRows(rs, domain, tenant), NodeRows(rs[1..], domain, tenant);
    if Selected(rs[0], domain, tenant) {
      assert rows == [RowOf(rs[0])] + rest && rows[1..] == rest;
    } else {
      assert rows == rest;
    }
  }

  lemma AscendsShifted(at: seq<nat>, limit: nat)
    requires Ascending(at, limit)
    ensures Ascending(Shifted(at), limit + 1)
  {
  }

  lemma AscendsFromFirst(at: seq<nat>, limit: nat)
    requires Ascending(at, limit)
    ensures Ascending([0] + Shifted(at), limit + 1)
  {
    var all := [0] + Shifted(at);
    forall j, k | 0 <= j < k < |all| ensures all[j] < all[k] {
      assert all[k] == at[k - 1] + 1;
      if j > 0 { assert all[j] == at[j - 1] + 1; }
    }
  }

  lemma TellsAt(chunks: seq<Chunk>, rs: seq<NodeRecord>, domain: string, tenant: string, source: string, version: string,
        at: seq<nat>, k: nat)
    requires ChunksTell(chunks, rs, domain, tenant, source, version, at) && k < |at|
    ensures |at| == |chunks| && at[k] < |rs|
    ensures BelongsTo(rs[at[k]], domain, tenant, source, version) && SameChunk(chunks[k], rs[at[k]])
  {
  }

  lemma PlaceOf(chunks: seq<Chunk>, rs: seq<NodeRecord>, domain: string, tenant: string, source: string, version: string,
        at: seq<nat>, i: nat) returns (k: nat)
    requires ChunksTell(chunks, rs, domain, tenant, source, version, at)
    requires i < |rs| && BelongsTo(rs[i], domain, tenant, source, version)
    ensures k < |at| && at[k] == i
  {
    k :| 0 <= k < |at| && at[k] == i;
  }

  lemma PlacesAscend(chunks: seq<Chunk>, rs: seq<NodeRecord>, domain: string, tenant: string, source: string, version: string,
        at: seq<nat>)
    requires ChunksTell(chunks, rs, domain, tenant, source, version, at)
    ensures Ascending(at, |rs|) && |at| == |chunks|
  {
  }

  lemma TellsFromSecond(chunks: seq<Chunk>, rs: seq<NodeRecord>, domain: string, tenant: string, source: string,
        version: string, at: seq<nat>)
    requires rs != [] && !BelongsTo(rs[0], domain, tenant, source, version)
    requires ChunksTell(chunks, rs[1..], domain, tenant, source, version, at)
    ensures ChunksTell(chunks, rs, domain, tenant, source, version, Shifted(at))
  {
    hide BelongsTo;
    hide SameChunk;
    var all, rest := Shifted(at), rs[1..];
    PlacesAscend(chunks, rest, domain, tenant, source, version, at);
    AscendsShifted(at, |rest|);
    hide Ascending;
    forall k | 0 <= k < |all|
      ensures all[k] < |rs| && BelongsTo(rs[all[k]], domain, tenant, source, version) && SameChunk(chunks[k], rs[all[k]])
    {
      hide ChunksTell;
      TellsAt(chunks, rest, domain, tenant, source, version, at, k);
      assert rs[all[k]] == rest[at[k]];
    }
    forall i | 0 <= i < |rs| && BelongsTo(rs[i], domain, tenant, source, version) ensures i in all {
      hide ChunksTell;
      assert i > 0 && rest[i - 1] == rs[i];
      var k := PlaceOf(chunks, rest, domain, tenant, source, version, at, i - 1);
      assert all[k] == i;
    }
  }

  lemma TellsFromFirst(x: Chunk, chunks: seq<Chunk>, rs: seq<NodeRecord>, domain: string, tenant: string, source: string,
        version: string, at: seq<nat>)
    requires rs != [] && BelongsTo(rs[0], domain, tenant, source, version) && SameChunk(x, rs[0])
    requires ChunksTell(chunks, rs[1..], domain, tenant, source, version, at)
    ensures ChunksTell([x] + chunks, rs, domain, tenant, source, version, [0] + Shifted(at))
  {
    hide BelongsTo;
    hide SameChunk;
    var all, told, rest := [0] + Shifted(at), [x] + chunks, rs[1..];
    PlacesAscend(chunks, rest, domain, tenant, source, version, at);
    AscendsFromFirst(at, |rest|);
    hide Ascending;
    forall k | 0 <= k < |all|
      ensures all[k] < |rs| && BelongsTo(rs[all[k]], domain, tenant, source, version) && SameChunk(told[k], rs[all[k]])
    {
      hide ChunksTell;
      if k > 0 {
        TellsAt(chunks, rest, domain, tenant, source, version, at, k - 1);
        assert rs[all[k]] == rest[at[k - 1]] && told[k] == chunks[k - 1];
      }
    }
    forall i | 0 <= i < |rs| && BelongsTo(rs[i], domain, tenant, source, version) ensures i in all {
      hide ChunksTell;
      if i > 0 {
        assert rest[i - 1] == rs[i];
        var k := PlaceOf(chunks, rest, domain, tenant, source, version, at, i - 1);
        assert all[k + 1] == i;
      } else {
        assert all[0] == 0;
      }
    }
  }

  lemma {:induction false} RecordsBecomeChunks(rs: seq<NodeRecord>, domain: string, tenant: string, source: string,
        version: string) returns (at: seq<nat>)
    ensures ChunksTell(ChunksOf(NodeRows(rs, domain, tenant), source, version), rs, domain, tenant, source, version, at)
    decreases |rs|
  {
    if rs == [] {
      at := [];
    } else {
      at := RecordsBecomeChunks(rs[1..], domain, tenant, source, version);
      ChunksOfFirst(rs, domain, tenant, source, version);
      var chunks := ChunksOf(NodeRows(rs[1..], domain, tenant), source, version);
      if BelongsTo(rs[0], domain, tenant, source, version) {
        TellsFromFirst(ChunkOfRow(RowOf(rs[0])), chunks, rs, domain, tenant, source, version, at);
        at := [0] + Shifted(at);
      } else {
        TellsFromSecond(chunks, rs, domain, tenant, source, version, at);
        assert ChunksOf(NodeRows(rs, domain, tenant), source, version) == chunks;
        at := Shifted(at);
      }
    }
  }

  // ------------------------------------------------------------------------------ relationships

  predicate SameRelationship(x: Relationship, e: EdgeRecord) {
    && x.from.source == e.fromSource && x.from.chunk == e.fromChunk
    && x.to.source == e.toSource && x.to.chunk == e.toChunk && x.kind == e.kind
  }

  /** An edge that starts and ends at selected nodes, owned by this version. */
  ghost predicate OwnedInside(e: EdgeRecord, rs: seq<NodeRecord>, domain: string, tenant: string, source: string,
        version: string) {
    && e.tenant == tenant && e.ownerSource == source && e.ownerVersion == version
    && (exists r :: r in rs && Selected(r, domain, tenant) && r.chunk == e.fromChunk)
    && exists r :: r in rs && Selected(r, domain, tenant) && r.chunk == e.toChunk
  }

  lemma {:induction false} FoundIsRecord(rs: seq<NodeRecord>, domain: string, tenant: string, chunk: string)
    ensures FindNode(NodeRows(rs, domain, tenant), chunk).Some? <==>
            exists r :: r in rs && Selected(r, domain, tenant) && r.chunk == chunk
  {
    if rs != [] {
      FoundIsRecord(rs[1..], domain, tenant, chunk);
      var rows, rest := NodeRows(rs, domain, tenant), NodeRows(rs[1..], domain, tenant);
      assert forall r :: r in rs <==> r == rs[0] || r in rs[1..];
      if Selected(rs[0], domain, tenant) {
        assert rows == [RowOf(rs[0])] + rest && rows[1..] == rest;
      } else {
        assert rows == rest;
      }
    }
  }

  /** The relationships of a version are its edges between selected nodes, whatever their order. */
  lemma {:induction false} EdgesBecomeRelationships(nodes: seq<NodeRow>, es: seq<EdgeRecord>, tenant: string, source: string,
        version: string)
    ensures forall x :: x in RelationshipsOf(InsideRows(nodes, es, tenant), source, version) <==>
                          exists e :: e in es && Inside(nodes, e, tenant) && e.ownerSource == source
                                      && e.ownerVersion == version && SameRelationship(x, e)
  {
    if es != [] {
      EdgesBecomeRelationships(nodes, es[1..], tenant, source, version);
      hide Inside;
      var rows, rest := InsideRows(nodes, es, tenant), InsideRows(nodes, es[1..], tenant);
      assert forall e :: e in es <==> e == es[0] || e in es[1..];
      if Inside(nodes, es[0], tenant) {
        assert rows == [EdgeRowOf(es[0])] + rest && rows[1..] == rest;
      } else {
        assert rows == rest;
      }
      forall x
        ensures x in RelationshipsOf(rows, source, version) <==>
                  || x in RelationshipsOf(rest, source, version)
                  || (&& Inside(nodes, es[0], tenant) && es[0].ownerSource == source && es[0].ownerVersion == version
                      && SameRelationship(x, es[0]))
      {
      }
    }
  }

  // -------------------------------------------------------------------------------- commands

  /** The tables of accepted files, record by record. */
  lemma PreparedHolds(files: Files, domain: string, tenant: string, scope: Scope)
    requires Prepared(files, domain, tenant, scope).Ok?
    ensures var t := Prepared(files, domain, tenant, scope).value;
            && t.nodes == NodeRows(files.nodes, domain, tenant)
            && t.relationships == InsideRows(t.nodes, files.edges, tenant)
            && t.order.Keys == KeysOf(t.nodes)
  {
    PreparedIsSound(files, domain, tenant, scope);
    hide LoadNodes;
    hide LoadOperations;
    hide LoadEdges;
    hide Sound;
    hide KeysOf;
    var nodes := LoadNodes(NO_TABLES, files.nodes, domain, tenant).value;
    assert NoRepeat(Chunks([])) && NoRepeat<EdgeRow>([]);
    NodesExactly(NO_TABLES, files.nodes, domain, tenant);
    var operations := LoadOperations(nodes, files.operations, domain, tenant).value;
    OperationsKeepTables(nodes, files.operations, domain, tenant);
    EdgesExactly(operations, files.edges, tenant, scope);
    var t := Prepared(files, domain, tenant, scope).value;
    assert [] + NodeRows(files.nodes, domain, tenant) == NodeRows(files.nodes, domain, tenant);
    assert [] + InsideRows(t.nodes, files.edges, tenant) == InsideRows(t.nodes, files.edges, tenant);
    KeysOfSound(t);
  }

  lemma KeysOfSound(t: Tables)
    ensures Sound(t) ==> t.order.Keys == KeysOf(t.nodes)
  {
  }

  lemma {:induction false} KeysAreRecords(rs: seq<NodeRecord>, domain: string, tenant: string, source: string, version: string)
    ensures (source, version) in KeysOf(NodeRows(rs, domain, tenant)) <==>
            exists r :: r in rs && BelongsTo(r, domain, tenant, source, version)
  {
    var found := (source, version) in KeysOf(NodeRows(rs, domain, tenant));
    if rs != [] {
      KeysAreRecords(rs[1..], domain, tenant, source, version);
      KeysOfFirst(rs, domain, tenant, source, version);
      hide KeysOf;
      if found && !BelongsTo(rs[0], domain, tenant, source, version) {
        var r :| r in rs[1..] && BelongsTo(r, domain, tenant, source, version);
        assert r in rs;
      }
      if r :| r in rs && BelongsTo(r, domain, tenant, source, version) { assert r == rs[0] || r in rs[1..]; }
    }
  }

  lemma KeysOfFirst(rs: seq<NodeRecord>, domain: string, tenant: string, source: string, version: string)
    requires rs != []
    ensures (source, version) in KeysOf(NodeRows(rs, domain, tenant)) <==>
              || BelongsTo(rs[0], domain, tenant, source, version)
              || (source, version) in KeysOf(NodeRows(rs[1..], domain, tenant))
  {
    var rows, rest := NodeRows(rs, domain, tenant), NodeRows(rs[1..], domain, tenant);
    if Selected(rs[0], domain, tenant) {
      var first := RowOf(rs[0]);
      assert rows == [first] + rest;
      assert forall row :: row in rows <==> row == first || row in rest;
      if (source, version) in KeysOf(rest) {
        var row :| row in rest && KeyOfRow(row) == (source, version);
        assert row in rows;
      }
      assert first in rows && KeyOfRow(first) == (rs[0].source, rs[0].version);
    } else {
      assert rows == rest;
    }
  }

  /** What a command says of the file: its version has records, its chunks are these records, its key
      is made of the names. */
  ghost predicate SaysRecords(c: Command, files: Files, domain: string, tenant: string) {
    && c.source.tenant == tenant && c.source.domain == domain
    && c.key == "dataset:" + domain + ":" + tenant + ":" + c.source.source + ":" + c.version
    && (exists r :: r in files.nodes && BelongsTo(r, domain, tenant, c.source.source, c.version))
    && exists at :: ChunksTell(c.chunks, files.nodes, domain, tenant, c.source.source, c.version, at)
  }

  lemma CommandSaysRecords(files: Files, domain: string, tenant: string, scope: Scope, row: VersionRow, related: bool)
    requires Prepared(files, domain, tenant, scope).Ok?
    requires (row.source, row.version) in Prepared(files, domain, tenant, scope).value.order
    ensures var t := Prepared(files, domain, tenant, scope).value;
            SaysRecords(CommandOf(t, domain, tenant, row, related), files, domain, tenant)
  {
    hide Prepared;
    hide NodeRows;
    hide KeysOf;
    hide ChunksTell;
    hide ChunksOf;
    hide BelongsTo;
    hide RelationshipsOf;
    PreparedHolds(files, domain, tenant, scope);
    KeysAreRecords(files.nodes, domain, tenant, row.source, row.version);
    var at := RecordsBecomeChunks(files.nodes, domain, tenant, row.source, row.version);
  }

  /** The relationships that a command says are the edges between selected nodes that its version owns. */
  ghost predicate SaysEdges(c: Command, files: Files, domain: string, tenant: string) {
    forall x :: x in c.relationships <==>
                  exists e :: e in files.edges && OwnedInside(e, files.nodes, domain, tenant, c.source.source, c.version)
                              && SameRelationship(x, e)
  }

  lemma CommandSaysEdges(files: Files, domain: string, tenant: string, scope: Scope, row: VersionRow)
    requires Prepared(files, domain, tenant, scope).Ok?
    ensures SaysEdges(CommandOf(Prepared(files, domain, tenant, scope).value, domain, tenant, row, true), files, domain, tenant)
  {
    hide Prepared;
    hide NodeRows;
    hide ChunksOf;
    hide RelationshipsOf;
    hide FindNode;
    hide SameRelationship;
    PreparedHolds(files, domain, tenant, scope);
    var t := Prepared(files, domain, tenant, scope).value;
    EdgesBecomeRelationships(t.nodes, files.edges, tenant, row.source, row.version);
    forall e: EdgeRecord
      ensures Inside(t.nodes, e, tenant) && e.ownerSource == row.source && e.ownerVersion == row.version <==>
              OwnedInside(e, files.nodes, domain, tenant, row.source, row.version)
    {
      FoundIsRecord(files.nodes, domain, tenant, e.fromChunk);
      FoundIsRecord(files.nodes, domain, tenant, e.toChunk);
    }
    hide Inside;
    hide OwnedInside;
  }

  /** Whatever the files, if the reader accepts them: each source command says exactly the records of
      one version, and every selected record is said by one; each relationship command says besides
      exactly the edges between selected nodes that its version owns. */
  lemma FilesBecomeCommands(files: Files, domain: string, tenant: string, scope: Scope)
    requires Prepared(files, domain, tenant, scope).Ok?
    ensures var t := Prepared(files, domain, tenant, scope).value;
            var sources, related := SourceCommandsOf(t, domain, tenant), RelationshipCommandsOf(t, domain, tenant);
            && (forall c | c in sources :: SaysRecords(c, files, domain, tenant) && c.relationships == [])
            && (forall r | r in files.nodes && Selected(r, domain, tenant) ::
                  exists c :: c in sources && c.source.source == r.source && c.version == r.version)
            && (forall c | c in related :: SaysRecords(c, files, domain, tenant) && SaysEdges(c, files, domain, tenant))
  {
    hide Prepared;
    hide SaysRecords;
    hide SaysEdges;
    hide NodeRows;
    hide KeysOf;
    PreparedHolds(files, domain, tenant, scope);
    var t := Prepared(files, domain, tenant, scope).value;
    var all, current := InOrder(AllVersions(t)), InOrder(CurrentVersions(t));
    forall c | c in SourceCommandsOf(t, domain, tenant) ensures SaysRecords(c, files, domain, tenant) && c.relationships == [] {
      var i :| 0 <= i < |all| && SourceCommandsOf(t, domain, tenant)[i] == c;
      assert all[i] in AllVersions(t);
      CommandSaysRecords(files, domain, tenant, scope, all[i], false);
    }
    forall c | c in RelationshipCommandsOf(t, domain, tenant)
      ensures SaysRecords(c, files, domain, tenant) && SaysEdges(c, files, domain, tenant)
    {
      var i :| 0 <= i < |current| && RelationshipCommandsOf(t, domain, tenant)[i] == c;
      assert current[i] in CurrentVersions(t);
      CommandSaysRecords(files, domain, tenant, scope, current[i], true);
      CommandSaysEdges(files, domain, tenant, scope, current[i]);
    }
    forall r | r in files.nodes && Selected(r, domain, tenant)
      ensures exists c :: c in SourceCommandsOf(t, domain, tenant) && c.source.source == r.source && c.version == r.version
    {
      KeysAreRecords(files.nodes, domain, tenant, r.source, r.version);
      var row := VersionRow(r.source, t.order[(r.source, r.version)], r.version);
      assert row in AllVersions(t);
      var i :| 0 <= i < |all| && all[i] == row;
      assert SourceCommandsOf(t, domain, tenant)[i] == CommandOf(t, domain, tenant, row, false);
    }
  }
}
