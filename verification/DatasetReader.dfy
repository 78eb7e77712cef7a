/** `JsonlDatasetReader`: three files of records are loaded into tables, checked on the way. */
module DatasetReader {
  import opened Outcomes
  import Security

  datatype NodeRecord = NodeRecord(
    domain: string, tenant: string, source: string, version: string, chunk: string, body: string, acl: set<string>,
    security: Security.Labels)

  datatype Operation = AddSource(version: string) | ReplaceSource(toVersion: string) | DropSource | OtherOperation

  datatype OperationRecord = OperationRecord(domain: string, tenant: string, source: string, operation: Operation)

  datatype EdgeRecord = EdgeRecord(
    tenant: string, ownerSource: string, ownerVersion: string, fromSource: string, fromChunk: string,
    toSource: string, toVersion: string, toChunk: string, kind: string)

  datatype Scope = Internal | Complete

  datatype ReaderError =
    | DuplicateNode | UnknownVersion | UnsupportedOperation | MissingTarget | OwnerMismatch | TargetMismatch
    | DuplicateRelationship | NoSources | MissingCurrent | NotPrepared

  datatype NodeRow = NodeRow(
    chunk: string, source: string, version: string, body: string, acl: set<string>, security: Security.Labels)

  /** The whole row is its primary key. */
  datatype EdgeRow = EdgeRow(
    ownerSource: string, ownerVersion: string, fromSource: string, fromChunk: string,
    toSource: string, toChunk: string, kind: string)

  type SourceVersion = (string, string)

  /** `order` is the table of source versions with their order; a node's position is its index. */
  datatype Tables = Tables(
    order: map<SourceVersion, nat>, nodes: seq<NodeRow>, current: map<string, string>, deletions: set<string>,
    relationships: seq<EdgeRow>)

  const NO_TABLES: Tables := Tables(map[], [], map[], {}, [])

  // ------------------------------------------------------------------------------- nodes

  predicate HasNode(nodes: seq<NodeRow>, chunk: string) { exists i :: 0 <= i < |nodes| && nodes[i].chunk == chunk }

  function VersionsOf(order: map<SourceVersion, nat>, source: string): set<SourceVersion> {
    set k | k in order && k.0 == source
  }

  /** The next free number of a source for a version that is new. */
  function WithVersion(order: map<SourceVersion, nat>, key: SourceVersion): map<SourceVersion, nat> {
    if key in order then order else order[key := |VersionsOf(order, key.0)|]
  }

  function RowOf(r: NodeRecord): NodeRow { NodeRow(r.chunk, r.source, r.version, r.body, r.acl, r.security) }

  function AddNode(t: Tables, r: NodeRecord): Result<Tables, ReaderError> {
    if HasNode(t.nodes, r.chunk) then Err(DuplicateNode)
    else Ok(t.(order := WithVersion(t.order, (r.source, r.version)), nodes := t.nodes + [RowOf(r)]))
  }

  function LoadNodes(t: Tables, rs: seq<NodeRecord>, domain: string, tenant: string): Result<Tables, ReaderError>
    decreases |rs|
  {
    if rs == [] then Ok(t)
    else if rs[0].domain != domain || rs[0].tenant != tenant then LoadNodes(t, rs[1..], domain, tenant)
    else
      var added := AddNode(t, rs[0]);
      if added.Err? then added else LoadNodes(added.value, rs[1..], domain, tenant)
  }

  // -------------------------------------------------------------------------- operations

  function ApplyOperation(t: Tables, r: OperationRecord): Result<Tables, ReaderError> {
    match r.operation
    case AddSource(version) => SetCurrent(t, r.source, version)
    case ReplaceSource(version) => SetCurrent(t, r.source, version)
    case DropSource => Ok(t.(deletions := t.deletions + {r.source}))
    case OtherOperation => Err(UnsupportedOperation)
  }

  function SetCurrent(t: Tables, source: string, version: string): Result<Tables, ReaderError> {
    if (source, version) in t.order then Ok(t.(current := t.current[source := version])) else Err(UnknownVersion)
  }

  function LoadOperations(t: Tables, rs: seq<OperationRecord>, domain: string, tenant: string): Result<Tables, ReaderError>
    decreases |rs|
  {
    if rs == [] then Ok(t)
    else if rs[0].domain != domain || rs[0].tenant != tenant then LoadOperations(t, rs[1..], domain, tenant)
    else
      var applied := ApplyOperation(t, rs[0]);
      if applied.Err? then applied else LoadOperations(applied.value, rs[1..], domain, tenant)
  }

  // ------------------------------------------------------------------------------- edges

  function FindNode(nodes: seq<NodeRow>, chunk: string): Option<NodeRow> {
    if nodes == [] then None
    else if nodes[0].chunk == chunk then Some(nodes[0])
    else FindNode(nodes[1..], chunk)
  }

  function EdgeRowOf(r: EdgeRecord): EdgeRow {
    EdgeRow(r.ownerSource, r.ownerVersion, r.fromSource, r.fromChunk, r.toSource, r.toChunk, r.kind)
  }

  /** An edge that starts outside the selected domain is passed over; one that ends outside is
      passed over or refused, as the scope says. */
  function AddEdge(t: Tables, r: EdgeRecord, tenant: string, scope: Scope): Result<Tables, ReaderError> {
    if r.tenant != tenant then Ok(t)
    else
      var owner := FindNode(t.nodes, r.fromChunk);
      if owner.None? then Ok(t)
      else
        var target := FindNode(t.nodes, r.toChunk);
        if target.None? then (if scope.Complete? then Err(MissingTarget) else Ok(t))
        else if owner.value.source != r.ownerSource || owner.value.version != r.ownerVersion then Err(OwnerMismatch)
        else if target.value.source != r.toSource || target.value.version != r.toVersion then Err(TargetMismatch)
        else if EdgeRowOf(r) in t.relationships then Err(DuplicateRelationship)
        else Ok(t.(relationships := t.relationships + [EdgeRowOf(r)]))
  }

  function LoadEdges(t: Tables, rs: seq<EdgeRecord>, tenant: string, scope: Scope): Result<Tables, ReaderError>
    decreases |rs|
  {
    if rs == [] then Ok(t)
    else
      var added := AddEdge(t, rs[0], tenant, scope);
      if added.Err? then added else LoadEdges(added.value, rs[1..], tenant, scope)
  }

  // ----------------------------------------------------------------------------- prepare

  predicate EverySourceIsCurrent(t: Tables) { forall k | k in t.order :: k.0 in t.current }

  function Checked(t: Tables): Result<Tables, ReaderError> {
    if t.order == map[] then Err(NoSources)
    else if !EverySourceIsCurrent(t) then Err(MissingCurrent)
    else Ok(t)
  }

  datatype Files = Files(nodes: seq<NodeRecord>, operations: seq<OperationRecord>, edges: seq<EdgeRecord>)

  function Prepared(files: Files, domain: string, tenant: string, scope: Scope): Result<Tables, ReaderError> {
    var nodes := LoadNodes(NO_TABLES, files.nodes, domain, tenant);
    if nodes.Err? then nodes
    else
      var operations := LoadOperations(nodes.value, files.operations, domain, tenant);
      if operations.Err? then operations
      else
        var edges := LoadEdges(operations.value, files.edges, tenant, scope);
        if edges.Err? then edges else Checked(edges.value)
  }

  class Workspace {
    var order: map<SourceVersion, nat>
    var nodes: seq<NodeRow>
    var current: map<string, string>
    var deletions: set<string>
    var relationships: seq<EdgeRow>
    var prepared: bool

    ghost function Value(): Tables
      reads this
    {
      Tables(order, nodes, current, deletions, relationships)
    }

    constructor ()
      ensures Value() == NO_TABLES && !prepared
    {
      order, nodes, current, deletions, relationships, prepared := map[], [], map[], {}, [], false;
    }

    method Node(chunk: string) returns (row: Option<NodeRow>)
      ensures row == FindNode(nodes, chunk)
    {
      for i := 0 to |nodes|
        invariant FindNode(nodes, chunk) == FindNode(nodes[i..], chunk)
      {
        assert nodes[i..][1..] == nodes[i + 1..];
        if nodes[i].chunk == chunk { return Some(nodes[i]); }
      }
      row := None;
    }

    /** `_load_nodes`. */
    method ReadNodes(rs: seq<NodeRecord>, domain: string, tenant: string) returns (error: Option<ReaderError>)
      modifies this`order, this`nodes
      ensures var r := LoadNodes(old(Value()), rs, domain, tenant);
              if error.Some? then r == Err(error.value) else r == Ok(Value())
    {
      hide VersionsOf;
      hide HasNode;
      for i := 0 to |rs|
        invariant LoadNodes(Value(), rs[i..], domain, tenant) == LoadNodes(old(Value()), rs, domain, tenant)
      {
        assert rs[i..][1..] == rs[i + 1..];
        var r := rs[i];
        if r.domain == domain && r.tenant == tenant {
          if HasNode(nodes, r.chunk) { return Some(DuplicateNode); }
          var key := (r.source, r.version);
          if key !in order { order := order[key := |VersionsOf(order, r.source)|]; }
          nodes := nodes + [NodeRow(r.chunk, r.source, r.version, r.body, r.acl, r.security)];
        }
      }
      error := None;
    }

    /** `_set_current`. */
    method MakeCurrent(source: string, version: string) returns (error: Option<ReaderError>)
      modifies this`current
      ensures var r := SetCurrent(old(Value()), source, version);
              if error.Some? then r == Err(error.value) else r == Ok(Value())
    {
      if (source, version) !in order { return Some(UnknownVersion); }
      current := current[source := version];
      error := None;
    }

    /** `_load_operations`. */
    method ReadOperations(rs: seq<OperationRecord>, domain: string, tenant: string) returns (error: Option<ReaderError>)
      modifies this`current, this`deletions
      ensures var r := LoadOperations(old(Value()), rs, domain, tenant);
              if error.Some? then r == Err(error.value) else r == Ok(Value())
    {
      hide SetCurrent;
      error := None;
      for i := 0 to |rs|
        invariant error.None?
        invariant LoadOperations(Value(), rs[i..], domain, tenant) == LoadOperations(old(Value()), rs, domain, tenant)
      {
        assert rs[i..][1..] == rs[i + 1..];
        var r := rs[i];
        if r.domain == domain && r.tenant == tenant {
          match r.operation {
            case AddSource(version) => error := MakeCurrent(r.source, version);
            case ReplaceSource(version) => error := MakeCurrent(r.source, version);
            case DropSource => deletions := deletions + {r.source};
            case OtherOperation => error := Some(UnsupportedOperation);
          }
          if error.Some? { return; }
        }
      }
    }

    /** `_load_edges`. */
    method ReadEdges(rs: seq<EdgeRecord>, tenant: string, scope: Scope) returns (error: Option<ReaderError>)
      modifies this`relationships
      ensures var r := LoadEdges(old(Value()), rs, tenant, scope);
              if error.Some? then r == Err(error.value) else r == Ok(Value())
    {
      hide FindNode;
      for i := 0 to |rs|
        invariant LoadEdges(Value(), rs[i..], tenant, scope) == LoadEdges(old(Value()), rs, tenant, scope)
      {
        assert rs[i..][1..] == rs[i + 1..];
        var r := rs[i];
        if r.tenant != tenant { continue; }
        var owner := Node(r.fromChunk);
        if owner.None? { continue; }
        var target := Node(r.toChunk);
        if target.None? {
          if scope.Complete? { return Some(MissingTarget); }
          continue;
        }
        if owner.value.source != r.ownerSource || owner.value.version != r.ownerVersion { return Some(OwnerMismatch); }
        if target.value.source != r.toSource || target.value.version != r.toVersion { return Some(TargetMismatch); }
        if EdgeRowOf(r) in relationships { return Some(DuplicateRelationship); }
        relationships := relationships + [EdgeRowOf(r)];
      }
      error := None;
    }

    /** `prepare`: the tables are made anew and rolled back to empty on any error; an error does
        not take back an earlier success. */
    method Prepare(files: Files, domain: string, tenant: string, scope: Scope) returns (error: Option<ReaderError>)
      modifies this
      ensures var r := Prepared(files, domain, tenant, scope);
              if error.Some? then r == Err(error.value) && Value() == NO_TABLES && prepared == old(prepared)
              else r == Ok(Value()) && prepared
    {
      hide LoadNodes;
      hide LoadOperations;
      hide LoadEdges;
      order, nodes, current, deletions, relationships := map[], [], map[], {}, [];
      error := ReadNodes(files.nodes, domain, tenant);
      if error.None? { error := ReadOperations(files.operations, domain, tenant); }
      if error.None? { error := ReadEdges(files.edges, tenant, scope); }
      if error.None? {
        if order == map[] { error := Some(NoSources); }
        else if exists k :: k in order && k.0 !in current { error := Some(MissingCurrent); }
      }
      if error.Some? {
        order, nodes, current, deletions, relationships := map[], [], map[], {}, [];
      } else {
        prepared := true;
      }
    }
  }
}
