/** Files that the reader accepts and no import completes, files that one scope refuses, and what a
    failed second preparation leaves: each at a concrete input.
 */
module ReaderLimits {
  import opened Outcomes
  import opened DatasetReader
  import opened ReaderCommands
  import opened ReaderImport
  import opened DatasetImport
  import opened DualStore
  import opened ImportConvergence
  import Generator
  import GeneratedDataset
  import GeneratedReading
  import Identifiers
  import IngestionStore
  import Security

  const NONE := Security.Labels(None, {})

  function NodeOf(source: string, version: string, chunk: string): NodeRecord {
    NodeRecord("d", "t", source, version, chunk, "", {}, NONE)
  }

  function Added(source: string, version: string): OperationRecord { OperationRecord("d", "t", source, AddSource(version)) }

  /** One node and an edge from it to itself that names another source as its start. */
  function OtherOwner(): Files {
    Files([NodeOf("s", "v", "n")], [Added("s", "v")], [EdgeRecord("t", "s", "v", "o", "n", "s", "v", "n", "k")])
  }

  /** The reader does not compare the two sources of an edge; the command's constructor does, on
      every attempt. */
  lemma AcceptedFilesCanBeUnmakeable(scope: Scope, hash: string, profile: Security.DomainProfile, w: World)
    ensures var read := Prepared(OtherOwner(), "d", "t", scope);
            && read.Ok? && !Makeable(read.value)
            && (Untouched(w, DatasetOf(read.value, hash, profile)) ==>
                  !Attempt(w, DatasetOf(read.value, hash, profile), Unlimited).ok)
  {
    hide Untouched;
    hide Attempt;
    hide DatasetOf;
    var t := OtherOwnerTables(scope);
    PreparedIsSound(OtherOwner(), "d", "t", scope);
    assert VersionRow("s", 0, "v") in CurrentVersions(t);
    assert !FitsOwner(t.nodes, t.relationships[0]);
    if Untouched(w, DatasetOf(t, hash, profile)) { ImportCompletesExactly(t, hash, profile, w); }
  }

  lemma OtherOwnerTables(scope: Scope) returns (t: Tables)
    ensures Prepared(OtherOwner(), "d", "t", scope) == Ok(t)
    ensures t.order == map[("s", "v") := 0] && t.current == map["s" := "v"]
    ensures t.nodes == [NodeRow("n", "s", "v", "", {}, NONE)]
    ensures t.relationships == [EdgeRow("s", "v", "o", "n", "s", "n", "k")]
  {
    var files := OtherOwner();
    var row := NodeRow("n", "s", "v", "", {}, NONE);
    assert VersionsOf(map[], "s") == {};
    var t1 := Tables(map[("s", "v") := 0], [row], map[], {}, []);
    assert LoadNodes(NO_TABLES, files.nodes, "d", "t") == Ok(t1) by {
      assert NO_TABLES.nodes + [row] == [row];
      assert WithVersion(NO_TABLES.order, ("s", "v")) == map[("s", "v") := 0];
      assert AddNode(NO_TABLES, files.nodes[0]) == Ok(t1);
      assert files.nodes[1..] == [];
    }
    var t2 := t1.(current := map["s" := "v"]);
    assert LoadOperations(t1, files.operations, "d", "t") == Ok(t2) by {
      assert ApplyOperation(t1, files.operations[0]) == Ok(t2);
      assert files.operations[1..] == [];
    }
    var edge := EdgeRow("s", "v", "o", "n", "s", "n", "k");
    t := t2.(relationships := [edge]);
    assert LoadEdges(t2, files.edges, "t", scope) == Ok(t) by {
      assert t2.relationships + [edge] == [edge];
      assert FindNode(t2.nodes, "n") == Some(row);
      assert AddEdge(t2, files.edges[0], "t", scope) == Ok(t);
      assert files.edges[1..] == [];
    }
  }

  /** Two sources whose names and versions join to the same idempotency key. */
  function Colliding(): Files {
    Files([NodeOf("a", "b:c", "m"), NodeOf("a:b", "c", "n")], [Added("a", "b:c"), Added("a:b", "c")], [])
  }

  /** Accepted by the reader, and no attempt ever completes. */
  lemma AcceptedFilesCanShareAKey(scope: Scope, hash: string, profile: Security.DomainProfile, w: World, fuel: Fuel)
    ensures var read := Prepared(Colliding(), "d", "t", scope);
            && read.Ok? && !DistinctKeys(read.value)
            && (IngestionStore.Valid(w.system.db) && w.run.None? ==> !Attempt(w, DatasetOf(read.value, hash, profile), fuel).ok)
  {
    hide IngestionStore.Valid;
    hide Attempt;
    hide DatasetOf;
    hide Prepared;
    hide Sound;
    var t := CollidingTables(scope);
    PreparedIsSound(Colliding(), "d", "t", scope);
    KeysCollide(t);
    if IngestionStore.Valid(w.system.db) && w.run.None? { SharedKeyStops(t, hash, profile, w, fuel); }
  }

  lemma KeysCollide(t: Tables)
    requires t.order == map[("a", "b:c") := 0, ("a:b", "c") := 0]
    ensures !DistinctKeys(t)
  {
    var a, b := VersionRow("a", 0, "b:c"), VersionRow("a:b", 0, "c");
    assert ("a", "b:c") in t.order && ("a:b", "c") in t.order;
    assert a in AllVersions(t) && b in AllVersions(t);
    assert KeyEnd(a) == KeyEnd(b);
    assert |a.source| != |b.source|;
  }

  lemma CollidingTables(scope: Scope) returns (t: Tables)
    ensures Prepared(Colliding(), "d", "t", scope) == Ok(t)
    ensures t.order == map[("a", "b:c") := 0, ("a:b", "c") := 0]
  {
    var files := Colliding();
    var first, second := NodeRow("m", "a", "b:c", "", {}, NONE), NodeRow("n", "a:b", "c", "", {}, NONE);
    var t1 := Tables(map[("a", "b:c") := 0], [first], map[], {}, []);
    var t2 := Tables(map[("a", "b:c") := 0, ("a:b", "c") := 0], [first, second], map[], {}, []);
    assert LoadNodes(NO_TABLES, files.nodes, "d", "t") == Ok(t2) by {
      assert NO_TABLES.nodes + [first] == [first] && t1.nodes + [second] == [first, second];
      assert VersionsOf(t1.order, "a:b") == {};
      assert WithVersion(NO_TABLES.order, ("a", "b:c")) == t1.order && WithVersion(t1.order, ("a:b", "c")) == t2.order;
      assert AddNode(NO_TABLES, files.nodes[0]) == Ok(t1) && AddNode(t1, files.nodes[1]) == Ok(t2);
      assert files.nodes[1..] == [files.nodes[1]] && files.nodes[1..][1..] == [];
    }
    var t3 := t2.(current := map["a" := "b:c"]);
    t := t3.(current := map["a" := "b:c", "a:b" := "c"]);
    assert LoadOperations(t2, files.operations, "d", "t") == Ok(t) by {
      assert ApplyOperation(t2, files.operations[0]) == Ok(t3) && ApplyOperation(t3, files.operations[1]) == Ok(t);
      assert files.operations[1..] == [files.operations[1]] && files.operations[1..][1..] == [];
    }
    assert LoadEdges(t, [], "t", scope) == Ok(t);
  }

  /** The smallest configuration with an edge between domains. */
  const TWO_DOMAINS := Generator.Config(20, 2, 1, 1, 1, 6, 1, 0)

  /** Complete scope refuses the first domain of that dataset; internal scope takes it. */
  lemma CompleteScopeRefuses(body: GeneratedDataset.Bodies)
    ensures Generator.Accepted(TWO_DOMAINS)
    ensures var files := GeneratedDataset.GeneratedFiles(TWO_DOMAINS, body);
            var domain, tenant := Identifiers.DomainName(0), Identifiers.TenantId(0, 1);
            Prepared(files, domain, tenant, Complete).Err? && Prepared(files, domain, tenant, Internal).Ok?
  {
    hide Prepared;
    hide GeneratedDataset.GeneratedFiles;
    hide Identifiers.DomainName;
    hide Identifiers.TenantId;
    assert GeneratedReading.Linked(TWO_DOMAINS, 0);
    GeneratedReading.ReaderAcceptsGenerated(TWO_DOMAINS, body, 0, Complete);
    GeneratedReading.ReaderAcceptsGenerated(TWO_DOMAINS, body, 0, Internal);
  }

  /** A second preparation, of files without a source for the domain, fails and empties the tables,
      but the workspace still counts as prepared: it hands out an empty dataset without an error. */
  method PrepareTwice(files: Files, scope: Scope)
    returns (w: Workspace, error: Option<ReaderError>, commands: Result<seq<IngestionStore.Command>, ReaderError>)
    requires Prepared(files, "d", "t", scope).Ok?
    ensures error == Some(NoSources) && w.prepared && w.Value() == NO_TABLES && commands == Ok([])
  {
    hide Prepared;
    w := new Workspace();
    error := w.Prepare(files, "d", "t", scope);
    error := w.Prepare(Files([], [], []), "d", "t", scope);
    NothingPrepares(scope);
    commands := SourceCommands(w, "d", "t");
    NoCommands();
  }

  lemma NothingPrepares(scope: Scope)
    ensures Prepared(Files([], [], []), "d", "t", scope) == Err(NoSources)
  {
  }

  lemma NoCommands()
    ensures SourceCommandsOf(NO_TABLES, "d", "t") == []
  {
    assert AllVersions(NO_TABLES) == {};
    InOrderSize({});
  }
}
