/** Exactly which files the reader accepts, and what its tables hold then. */
module ReaderProperties {
  import opened Outcomes
  import opened Sequences
  import opened DatasetReader

  // -------------------------------------------------------------------------------- nodes

  /** The rows for the nodes of one tenant's domain, in file order. */
  function NodeRows(rs: seq<NodeRecord>, domain: string, tenant: string): seq<NodeRow> {
    if rs == [] then []
    else (if rs[0].domain == domain && rs[0].tenant == tenant then [RowOf(rs[0])] else []) + NodeRows(rs[1..], domain, tenant)
  }

  function Chunks(rows: seq<NodeRow>): (r: seq<string>)
    ensures |r| == |rows|
  {
    seq(|rows|, i requires 0 <= i < |rows| => rows[i].chunk)
  }

  lemma ChunksAppend(a: seq<NodeRow>, b: seq<NodeRow>)
    ensures Chunks(a + b) == Chunks(a) + Chunks(b)
  {
  }

  lemma HasNodeMeansChunk(nodes: seq<NodeRow>, chunk: string)
    ensures HasNode(nodes, chunk) <==> chunk in Chunks(nodes)
  {
    if HasNode(nodes, chunk) {
      var i :| 0 <= i < |nodes| && nodes[i].chunk == chunk;
      assert Chunks(nodes)[i] == chunk;
    }
  }

  ghost predicate SameButNodes(a: Tables, b: Tables) {
    a.current == b.current && a.deletions == b.deletions && a.relationships == b.relationships
  }

  /** Loading nodes succeeds exactly when no chunk identifier occurs twice, and then holds exactly
      the selected rows. */
  lemma {:induction false} NodesExactly(t: Tables, rs: seq<NodeRecord>, domain: string, tenant: string)
    requires NoRepeat(Chunks(t.nodes))
    ensures var r, rows := LoadNodes(t, rs, domain, tenant), NodeRows(rs, domain, tenant);
            && (r.Ok? <==> NoRepeat(Chunks(t.nodes + rows)))
            && (r.Ok? ==> r.value.nodes == t.nodes + rows && SameButNodes(t, r.value))
    decreases |rs|
  {
    hide Chunks;
    hide NoRepeat;
    hide HasNode;
    hide WithVersion;
    var rows := NodeRows(rs, domain, tenant);
    if rs == [] {
      assert t.nodes + rows == t.nodes;
    } else if rs[0].domain != domain || rs[0].tenant != tenant {
      NodesExactly(t, rs[1..], domain, tenant);
      assert rows == NodeRows(rs[1..], domain, tenant);
    } else {
      var row, rest := RowOf(rs[0]), NodeRows(rs[1..], domain, tenant);
      assert t.nodes + rows == t.nodes + [row] + rest;
      HasNodeMeansChunk(t.nodes, row.chunk);
      ChunksOfOne(t.nodes, row);
      NoRepeatStep(Chunks(t.nodes), row.chunk);
      if HasNode(t.nodes, row.chunk) {
        RepeatStays(Chunks(t.nodes + [row]), Chunks(rest));
        ChunksAppend(t.nodes + [row], rest);
      } else {
        NodesExactly(AddNode(t, rs[0]).value, rs[1..], domain, tenant);
      }
    }
  }

  lemma ChunksOfOne(nodes: seq<NodeRow>, row: NodeRow)
    ensures Chunks(nodes + [row]) == Chunks(nodes) + [row.chunk]
  {
  }

  lemma RepeatStays<T>(a: seq<T>, b: seq<T>)
    requires !NoRepeat(a)
    ensures !NoRepeat(a + b)
  {
    var i, j :| 0 <= i < j < |a| && a[i] == a[j];
    assert (a + b)[i] == (a + b)[j];
  }

  /** The versions of each source are numbered from zero without gaps or repetitions. */
  ghost predicate Numbered(order: map<SourceVersion, nat>) {
    && (forall k | k in order :: order[k] < |VersionsOf(order, k.0)|)
    && forall k, l | k in order && l in order && k.0 == l.0 && order[k] == order[l] :: k == l
  }

  lemma WithVersionNumbered(order: map<SourceVersion, nat>, key: SourceVersion)
    requires Numbered(order)
    ensures Numbered(WithVersion(order, key))
    ensures forall k | k in order :: k in WithVersion(order, key) && WithVersion(order, key)[k] == order[k]
    ensures key !in order ==> forall k | k in order && k.0 == key.0 :: order[k] < WithVersion(order, key)[key]
  {
    hide VersionsOf;
    var next := WithVersion(order, key);
    if key !in order {
      var free := |VersionsOf(order, key.0)|;
      forall k | k in next ensures next[k] < |VersionsOf(next, k.0)| { VersionsAfter(order, key, k.0); }
      forall k | k in order && k.0 == key.0 ensures order[k] < free {}
    }
  }

  lemma VersionsAfter(order: map<SourceVersion, nat>, key: SourceVersion, source: string)
    requires key !in order
    ensures |VersionsOf(WithVersion(order, key), source)| == |VersionsOf(order, source)| + if key.0 == source then 1 else 0
  {
    assert VersionsOf(WithVersion(order, key), source) == VersionsOf(order, source) + if key.0 == source then {key} else {};
  }

  /** Versions keep their numbers, and a version seen later has a larger one: reading versions in
      the order of their numbers reads them as they first occur in the file. */
  lemma {:induction false} NumbersFollowTheFile(t: Tables, rs: seq<NodeRecord>, domain: string, tenant: string)
    requires Numbered(t.order) && LoadNodes(t, rs, domain, tenant).Ok?
    ensures var order := LoadNodes(t, rs, domain, tenant).value.order;
            && Numbered(order)
            && (forall k | k in t.order :: k in order && order[k] == t.order[k])
            && (forall k, l | k in t.order && l in order && l !in t.order && k.0 == l.0 :: t.order[k] < order[l])
    decreases |rs|
  {
    hide Numbered;
    hide HasNode;
    hide WithVersion;
    if rs != [] {
      if rs[0].domain != domain || rs[0].tenant != tenant {
        NumbersFollowTheFile(t, rs[1..], domain, tenant);
      } else {
        var key := (rs[0].source, rs[0].version);
        WithVersionNumbered(t.order, key);
        WithVersionKeys(t.order, key);
        NumbersFollowTheFile(AddNode(t, rs[0]).value, rs[1..], domain, tenant);
      }
    }
  }

  lemma WithVersionKeys(order: map<SourceVersion, nat>, key: SourceVersion)
    ensures WithVersion(order, key).Keys == order.Keys + {key}
  {
  }

  function KeyOfRow(row: NodeRow): SourceVersion { (row.source, row.version) }

  function KeysOf(rows: seq<NodeRow>): set<SourceVersion> { set row | row in rows :: KeyOfRow(row) }

  /** The source versions are those of the loaded rows. */
  lemma {:induction false} VersionsExactly(t: Tables, rs: seq<NodeRecord>, domain: string, tenant: string)
    requires LoadNodes(t, rs, domain, tenant).Ok? && t.order.Keys == KeysOf(t.nodes)
    ensures var r := LoadNodes(t, rs, domain, tenant).value;
            r.order.Keys == KeysOf(r.nodes)
    decreases |rs|
  {
    hide HasNode;
    hide WithVersion;
    if rs != [] {
      if rs[0].domain != domain || rs[0].tenant != tenant {
        VersionsExactly(t, rs[1..], domain, tenant);
      } else {
        var key, row := (rs[0].source, rs[0].version), RowOf(rs[0]);
        WithVersionKeys(t.order, key);
        KeysOfOne(t.nodes, row);
        hide KeysOf;
        VersionsExactly(AddNode(t, rs[0]).value, rs[1..], domain, tenant);
      }
    }
  }

  lemma KeysOfOne(rows: seq<NodeRow>, row: NodeRow)
    ensures KeysOf(rows + [row]) == KeysOf(rows) + {KeyOfRow(row)}
  {
  }

  // --------------------------------------------------------------------------- operations

  predicate Applies(r: OperationRecord, domain: string, tenant: string) { r.domain == domain && r.tenant == tenant }

  /** Supported, and about a version that the nodes have. */
  predicate Known(order: map<SourceVersion, nat>, r: OperationRecord) {
    match r.operation
    case AddSource(version) => (r.source, version) in order
    case ReplaceSource(version) => (r.source, version) in order
    case DropSource => true
    case OtherOperation => false
  }

  /** The version that the last operation to set it gives to a source. */
  function LastSet(rs: seq<OperationRecord>, domain: string, tenant: string, source: string): Option<string>
    decreases |rs|
  {
    if rs == [] then None
    else
      var last := rs[|rs| - 1];
      if Applies(last, domain, tenant) && last.source == source && last.operation.AddSource? then Some(last.operation.version)
      else if Applies(last, domain, tenant) && last.source == source && last.operation.ReplaceSource? then Some(last.operation.toVersion)
      else LastSet(rs[..|rs| - 1], domain, tenant, source)
  }

  lemma {:induction false} LoadOperationsAppend(t: Tables, rs: seq<OperationRecord>, last: OperationRecord,
        domain: string, tenant: string)
    ensures var before := LoadOperations(t, rs, domain, tenant);
            LoadOperations(t, rs + [last], domain, tenant) ==
              if before.Err? || !Applies(last, domain, tenant) then before else ApplyOperation(before.value, last)
    decreases |rs|
  {
    hide ApplyOperation;
    if rs == [] {
      assert (rs + [last])[1..] == [];
    } else {
      assert (rs + [last])[1..] == rs[1..] + [last];
      if !Applies(rs[0], domain, tenant) {
        LoadOperationsAppend(t, rs[1..], last, domain, tenant);
      } else if ApplyOperation(t, rs[0]).Ok? {
        LoadOperationsAppend(ApplyOperation(t, rs[0]).value, rs[1..], last, domain, tenant);
      }
    }
  }

  ghost predicate SameButOperations(a: Tables, b: Tables) {
    a.order == b.order && a.nodes == b.nodes && a.relationships == b.relationships
  }

  /** Loading operations succeeds exactly when every one of the domain is known; then the current
      version of a source is the one set last, and the deletions are those listed. */
  lemma {:induction false} OperationsExactly(t: Tables, rs: seq<OperationRecord>, domain: string, tenant: string)
    requires t.current == map[] && t.deletions == {}
    ensures var r := LoadOperations(t, rs, domain, tenant);
            && (r.Ok? <==> forall o | o in rs && Applies(o, domain, tenant) :: Known(t.order, o))
            && (r.Ok? ==>
                  && SameButOperations(t, r.value)
                  && r.value.deletions == (set o | o in rs && Applies(o, domain, tenant) && o.operation.DropSource? :: o.source)
                  && forall s :: match LastSet(rs, domain, tenant, s)
                                 case Some(v) => s in r.value.current && r.value.current[s] == v
                                 case None => s !in r.value.current)
    decreases |rs|
  {
    if rs != [] {
      var before, last := rs[..|rs| - 1], rs[|rs| - 1];
      assert rs == before + [last];
      OperationsExactly(t, before, domain, tenant);
      LoadOperationsAppend(t, before, last, domain, tenant);
      assert forall o :: o in rs <==> o in before || o == last;
    }
  }

  // -------------------------------------------------------------------------------- edges

  predicate Starts(nodes: seq<NodeRow>, e: EdgeRecord, tenant: string) {
    e.tenant == tenant && FindNode(nodes, e.fromChunk).Some?
  }

  /** An edge inside the selected nodes. */
  predicate Inside(nodes: seq<NodeRow>, e: EdgeRecord, tenant: string) {
    Starts(nodes, e, tenant) && FindNode(nodes, e.toChunk).Some?
  }

  predicate EndsMatch(nodes: seq<NodeRow>, e: EdgeRecord)
    requires Inside(nodes, e, e.tenant)
  {
    && KeyOfRow(FindNode(nodes, e.fromChunk).value) == (e.ownerSource, e.ownerVersion)
    && KeyOfRow(FindNode(nodes, e.toChunk).value) == (e.toSource, e.toVersion)
  }

  predicate EdgeFits(nodes: seq<NodeRow>, e: EdgeRecord, tenant: string, scope: Scope) {
    Starts(nodes, e, tenant) ==> if Inside(nodes, e, tenant) then EndsMatch(nodes, e) else scope.Internal?
  }

  function InsideRows(nodes: seq<NodeRow>, es: seq<EdgeRecord>, tenant: string): seq<EdgeRow> {
    if es == [] then []
    else (if Inside(nodes, es[0], tenant) then [EdgeRowOf(es[0])] else []) + InsideRows(nodes, es[1..], tenant)
  }

  ghost predicate SameButEdges(a: Tables, b: Tables) {
    a.order == b.order && a.nodes == b.nodes && a.current == b.current && a.deletions == b.deletions
  }

  /** Loading edges succeeds exactly when every edge that starts inside matches its nodes and, in
      complete scope, also ends inside, and no inner edge occurs twice; and then holds exactly the
      inner edges. */
  lemma {:induction false} EdgesExactly(t: Tables, es: seq<EdgeRecord>, tenant: string, scope: Scope)
    requires NoRepeat(t.relationships)
    ensures var r, rows := LoadEdges(t, es, tenant, scope), InsideRows(t.nodes, es, tenant);
            && (r.Ok? <==> (forall e | e in es :: EdgeFits(t.nodes, e, tenant, scope)) && NoRepeat(t.relationships + rows))
            && (r.Ok? ==> r.value.relationships == t.relationships + rows && SameButEdges(t, r.value))
    decreases |es|
  {
    hide NoRepeat;
    hide FindNode;
    hide EdgeRowOf;
    var rows := InsideRows(t.nodes, es, tenant);
    if es == [] {
      assert t.relationships + rows == t.relationships;
    } else {
      var e, rest := es[0], InsideRows(t.nodes, es[1..], tenant);
      assert e in es && forall x :: x in es <==> x == e || x in es[1..];
      if Inside(t.nodes, e, tenant) {
        assert t.relationships + rows == t.relationships + [EdgeRowOf(e)] + rest;
        NoRepeatStep(t.relationships, EdgeRowOf(e));
      } else {
        assert rows == rest;
      }
      var added := AddEdge(t, e, tenant, scope);
      if added.Ok? {
        EdgesExactly(added.value, es[1..], tenant, scope);
      } else if EdgeFits(t.nodes, e, tenant, scope) {
        RepeatStays(t.relationships + [EdgeRowOf(e)], rest);
      }
    }
  }

  lemma {:induction false} InsideRowsHold(nodes: seq<NodeRow>, es: seq<EdgeRecord>, tenant: string, row: EdgeRow)
    ensures row in InsideRows(nodes, es, tenant) <==> exists e :: e in es && Inside(nodes, e, tenant) && EdgeRowOf(e) == row
  {
    hide EdgeRowOf;
    hide Inside;
    if es != [] { InsideRowsHold(nodes, es[1..], tenant, row); }
  }

  lemma {:induction false} FindNodeFinds(nodes: seq<NodeRow>, chunk: string)
    ensures match FindNode(nodes, chunk)
            case Some(row) => row in nodes && row.chunk == chunk
            case None => forall row | row in nodes :: row.chunk != chunk
  {
    if nodes != [] { FindNodeFinds(nodes[1..], chunk); }
  }

  lemma FoundIsUnique(nodes: seq<NodeRow>, row: NodeRow)
    requires NoRepeat(Chunks(nodes)) && row in nodes
    ensures FindNode(nodes, row.chunk) == Some(row)
  {
    FindNodeFinds(nodes, row.chunk);
    var found := FindNode(nodes, row.chunk).value;
    var i :| 0 <= i < |nodes| && nodes[i] == row;
    var j :| 0 <= j < |nodes| && nodes[j] == found;
    assert Chunks(nodes)[i] == Chunks(nodes)[j];
  }
}
