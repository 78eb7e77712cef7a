/** The graph over the tables that ingestion fills: what each transaction changes of what a request
    can see, and what a request gets after any history of ingestion.
 */
module IngestedGraph {
  import opened Outcomes
  import opened Records
  import opened IngestionStore
  import opened DualStore
  import opened Transactions
  import Graph
  import GraphAnswers
  import GraphTraversal
  import Security

  /** A stored chunk as the security checks read it. */
  function Document(s: SourceKey, x: Chunk): Security.Chunk { Security.Chunk(s.tenant, s.domain, x.acl, x.security) }

  function VersionOfRow(row: Graph.ChunkRow): VersionKey {
    VersionKey(SourceKey(row.chunk.tenant, row.chunk.domain, row.node.source), row.version)
  }

  /** The row is in the chunk table. */
  predicate StoredRow(db: Db, row: Graph.ChunkRow) {
    var v := VersionOfRow(row);
    && v in db.versions
    && exists x :: x in db.versions[v].listing && x.id == row.node.chunk && row.chunk == Document(v.source, x)
  }

  /** The tables as the graph reads them, in whatever order the rows come. */
  ghost predicate Serves(st: Graph.Store, db: Db) {
    && st.current.Keys == db.sources.Keys
    && (forall s | s in db.sources :: st.current[s] == db.sources[s].version)
    && (forall row :: row in st.relationships <==> row in db.relationships)
    && (forall row :: row in st.chunks <==> StoredRow(db, row))
  }

  lemma {:induction false} Listing<T>(s: set<T>) returns (q: seq<T>)
    ensures forall x :: x in q <==> x in s
    decreases |s|
  {
    if s == {} {
      q := [];
    } else {
      var y :| y in s;
      q := Listing(s - {y});
      q := q + [y];
    }
  }

  /** Every state of the database can be read. */
  lemma TablesCanBeRead(db: Db) returns (st: Graph.Store)
    ensures Serves(st, db)
  {
    var rows := set v, x | v in db.versions && x in db.versions[v].listing ::
      Graph.ChunkRow(Node(v.source.source, x.id), v.version, Document(v.source, x));
    var relationships := Listing(db.relationships);
    var chunks := Listing(rows);
    st := Graph.Store(map s | s in db.sources :: db.sources[s].version, relationships, chunks);
    forall row ensures row in st.chunks <==> StoredRow(db, row) {
      if StoredRow(db, row) {
        var v := VersionOfRow(row);
        var x :| x in db.versions[v].listing && x.id == row.node.chunk && row.chunk == Document(v.source, x);
        assert row in rows;
      }
    }
  }

  predicate IsCurrent(db: Db, v: VersionKey) { v.source in db.sources && db.sources[v.source].version == v.version }

  predicate InRequest(q: Graph.Request, s: SourceKey) { s.tenant == q.scope.tenant && s.domain == q.scope.domain }

  predicate Wanted(q: Graph.Request, kind: string) { q.kinds == {} || kind in q.kinds }

  predicate Shown(q: Graph.Request, s: SourceKey, x: Chunk) {
    Security.SqlFilter(q.scope, Document(s, x)) == Ok(true)
  }

  // ------------------------------------------------------------- the view, source by source

  /** The rows that a request follows, read off the tables. */
  predicate Followed(db: Db, q: Graph.Request, row: Row) {
    row in db.relationships && InRequest(q, row.owner.source) && IsCurrent(db, row.owner) && Wanted(q, row.relationship.kind)
  }

  /** A node that a request may visit: a shown chunk of the current version of its source. */
  predicate Visitable(db: Db, q: Graph.Request, n: Node) {
    var s := SourceKey(q.scope.tenant, q.scope.domain, n.source);
    && s in db.sources && VersionKey(s, db.sources[s].version) in db.versions
    && exists x :: x in db.versions[VersionKey(s, db.sources[s].version)].listing && x.id == n.chunk && Shown(q, s, x)
  }

  lemma ViewOfTables(st: Graph.Store, db: Db, q: Graph.Request)
    requires Serves(st, db)
    ensures var g := Graph.ViewOf(st, q);
            && (forall row :: row in g.rows <==> Followed(db, q, row))
            && (forall n :: n in g.visible <==> Visitable(db, q, n))
            && g.direction == q.direction && g.seeds == Graph.SeedStates(q.seeds)
  {
    var g := Graph.ViewOf(st, q);
    forall n ensures n in g.visible <==> Visitable(db, q, n) {
      if n in g.visible {
        var row :| row in st.chunks && Graph.VisibleRow(st, q, row) && row.node == n;
        VisibleMeansVisitable(st, db, q, row);
      }
      if Visitable(db, q, n) {
        var s := SourceKey(q.scope.tenant, q.scope.domain, n.source);
        var v := VersionKey(s, db.sources[s].version);
        var x :| x in db.versions[v].listing && x.id == n.chunk && Shown(q, s, x);
        var row := Graph.ChunkRow(n, v.version, Document(s, x));
        assert StoredRow(db, row);
        assert Graph.VisibleRow(st, q, row);
      }
    }
  }

  lemma VisibleMeansVisitable(st: Graph.Store, db: Db, q: Graph.Request, row: Graph.ChunkRow)
    requires Serves(st, db) && row in st.chunks && Graph.VisibleRow(st, q, row)
    ensures Visitable(db, q, row.node)
  {
    assert StoredRow(db, row);
    var v := VersionOfRow(row);
    var x :| x in db.versions[v].listing && x.id == row.node.chunk && row.chunk == Document(v.source, x);
    assert InRequest(q, v.source);
    assert Shown(q, v.source, x);
  }

  /** The request sees the same rows and the same nodes. */
  ghost predicate SeesAlike(before: Db, after: Db, q: Graph.Request) {
    && (forall row :: Followed(before, q, row) <==> Followed(after, q, row))
    && (forall n :: Visitable(before, q, n) <==> Visitable(after, q, n))
  }

  lemma SeenAlikeIsSameView(st: Graph.Store, st': Graph.Store, db: Db, db': Db, q: Graph.Request)
    requires Serves(st, db) && Serves(st', db') && SeesAlike(db, db', q)
    ensures Graph.ViewOf(st', q) == Graph.ViewOf(st, q)
  {
    hide Followed;
    hide Visitable;
    hide Serves;
    ViewOfTables(st, db, q);
    ViewOfTables(st', db', q);
    hide Graph.ViewOf;
    var g, g' := Graph.ViewOf(st, q), Graph.ViewOf(st', q);
    assert g.rows == g'.rows;
    assert g.visible == g'.visible;
  }

  // -------------------------------------------------------- what one transaction makes visible

  /** The transactions that move no pointer, drop nothing and publish nothing. */
  predicate Quiet(e: Event) { e.Staging? || e.EnterIndexing? || e.EnterFailed? }

  lemma PointersAreStored(db: Db, v: VersionKey)
    requires Valid(db) && IsCurrent(db, v)
    ensures v in db.versions
  {
    PointerVersionExists(db, v.source);
  }

  lemma QuietKeepsPointed(db: Db, e: Event)
    requires Valid(db) && Quiet(e)
    ensures var after := Apply(db, e);
            && after.sources == db.sources
            && (forall v: VersionKey | v in db.versions :: v in after.versions && after.versions[v] == db.versions[v])
            && (forall row: Row | row.owner in db.versions :: row in after.relationships <==> row in db.relationships)
  {
    hide JobsValid;
    hide VersionsValid;
    hide SourcesValid;
    hide RelationshipsValid;
    hide PayloadOf;
    hide TargetsKnown;
    ApplyExtends(db, e);
  }

  /** Staging, entering indexing and failing cannot be seen by any request. */
  lemma QuietIsUnseen(db: Db, e: Event, q: Graph.Request)
    requires Valid(db) && Quiet(e)
    ensures SeesAlike(db, Apply(db, e), q)
  {
    hide Apply;
    hide Valid;
    var after := Apply(db, e);
    QuietKeepsPointed(db, e);
    forall row ensures Followed(db, q, row) <==> Followed(after, q, row) {
      hide Visitable;
      if IsCurrent(db, row.owner) { PointersAreStored(db, row.owner); }
    }
    hide Followed;
    forall n ensures Visitable(db, q, n) <==> Visitable(after, q, n) {
      hide Shown;
      var s := SourceKey(q.scope.tenant, q.scope.domain, n.source);
      if s in db.sources { PointersAreStored(db, VersionKey(s, db.sources[s].version)); }
    }
    hide Visitable;
  }

  lemma {:induction false} QuietRunIsUnseen(db: Db, events: seq<Event>, q: Graph.Request)
    requires Valid(db) && AllAdmissible(events) && forall e | e in events :: Quiet(e)
    ensures SeesAlike(db, ApplyAll(db, events), q)
    decreases |events|
  {
    hide Valid;
    hide Quiet;
    hide Admissible;
    hide Apply;
    hide Followed;
    hide Visitable;
    if events != [] {
      var before := events[..|events| - 1];
      QuietRunIsUnseen(db, before, q);
      InterleavingKeeps(db, before, 0);
      QuietIsUnseen(ApplyAll(db, before), events[|before|], q);
    }
  }

  /** However many workers stage, index and fail, in whatever order their transactions commit:
      every expansion returns what it returned before, until one of them moves a pointer. */
  lemma UnfinishedIngestionIsInvisible(db: Db, events: seq<Event>, q: Graph.Request, st: Graph.Store, st': Graph.Store)
    requires Valid(db) && AllAdmissible(events) && forall e | e in events :: Quiet(e)
    requires Serves(st, db) && Serves(st', ApplyAll(db, events))
    ensures Graph.ViewOf(st', q) == Graph.ViewOf(st, q)
    ensures Graph.Expansion(Graph.ViewOf(st', q), q.maxDepth, q.maxNodes)
            == Graph.Expansion(Graph.ViewOf(st, q), q.maxDepth, q.maxNodes)
  {
    QuietRunIsUnseen(db, events, q);
    SeenAlikeIsSameView(st, st', db, ApplyAll(db, events), q);
  }

  /** A pointer that moves swaps one source as a whole: its rows and nodes are those of the job's
      version, and nothing of another source changes. */
  lemma IndexingSwitchesOneSource(db: Db, id: nat, q: Graph.Request)
    requires Valid(db) && MarkIndexed(db, id).1.Ok?
    ensures var v, after := db.jobs[id].version, Apply(db, EnterIndexed(id));
            && v in db.versions
            && (forall row :: Followed(after, q, row) <==>
                  if row.owner.source == v.source
                  then row in db.relationships && row.owner == v && InRequest(q, v.source) && Wanted(q, row.relationship.kind)
                  else Followed(db, q, row))
            && (forall n :: Visitable(after, q, n) <==>
                  if InRequest(q, v.source) && n.source == v.source.source
                  then exists x :: x in db.versions[v].listing && x.id == n.chunk && Shown(q, v.source, x)
                  else Visitable(db, q, n))
  {
    JobVersionExists(db, id);
    hide Valid;
    hide Shown;
  }

  /** A deletion takes away the nodes of the source and every row that touches it, and no more. */
  lemma DeletionDropsOneSource(db: Db, s: SourceKey, q: Graph.Request)
    requires Valid(db)
    ensures var after := Apply(db, Delete(s));
            && (forall row :: Followed(after, q, row) <==> Followed(db, q, row) && !Touches(row, s))
            && (forall n :: Visitable(after, q, n) <==> Visitable(db, q, n) && !(InRequest(q, s) && n.source == s.source))
  {
    hide Shown;
  }

  /** A publication replaces the rows of the current version by the command's and shows no node. */
  lemma PublicationReplacesRows(db: Db, c: Command, q: Graph.Request)
    requires Publishable(db, c)
    ensures var after := Apply(db, Publish(c));
            && (forall row :: Followed(after, q, row) <==>
                  if row.owner == VersionOf(c)
                  then row.relationship in c.relationships && InRequest(q, c.source) && Wanted(q, row.relationship.kind)
                  else Followed(db, q, row))
            && (forall n :: Visitable(after, q, n) <==> Visitable(db, q, n))
  {
    hide TargetExists;
    hide RowAllowed;
    hide Shown;
  }

  // ------------------------------------------------------------- after any history of ingestion

  /** The documents stored for a domain can be read under its model. */
  ghost predicate Fitting(db: Db, tenant: string, domain: string, model: Security.SecurityModel) {
    forall v, x | v in db.versions && InScope(v.source, tenant, domain) && x in db.versions[v].listing ::
      Security.IngestibleSecurity(model, x.security)
  }

  /** Everything ingested into the domain was checked against this model. */
  ghost predicate CheckedBy(o: Operation, tenant: string, domain: string, model: Security.SecurityModel) {
    o.IngestNew? && o.profile.tenant == tenant && o.profile.name == domain ==> o.profile.model == model
  }

  lemma ProcessStoresNothing(system: System, id: nat, chunks: seq<Chunk>, fuel: Fuel)
    ensures Process(system, id, chunks, fuel).system.db.versions == system.db.versions
  {
    hide ReplaceSource;
  }

  lemma PerformKeepsFitting(system: System, o: Operation, tenant: string, domain: string, model: Security.SecurityModel)
    requires Fitting(system.db, tenant, domain, model) && CheckedBy(o, tenant, domain, model)
    ensures Fitting(Perform(system, o).system.db, tenant, domain, model)
  {
    hide Process;
    hide Security.IngestibleSecurity;
    match o
    case IngestNew(profile, c, fuel) =>
      if Admits(profile, c.source, c.chunks) && !Exhausted(fuel) {
        var staged := Stage(system.db, c);
        assert Fitting(staged.0, tenant, domain, model) by { hide PayloadOf; hide TargetsKnown; }
        hide Stage;
        if staged.1.Ok? {
          var chunks := if KeyOf(c) in system.db.byKey then JobChunks(staged.0, staged.1.value) else c.chunks;
          ProcessStoresNothing(system.(db := staged.0), staged.1.value, chunks, Spend(fuel));
        }
      }
    case Retry(profile, id, fuel) =>
      if !Exhausted(fuel) { ProcessStoresNothing(system, id, JobChunks(system.db, id), Spend(fuel)); }
    case PublishRelations(c) => hide Publishable;
    case RemoveSource(s, fuel) =>
  }

  lemma {:induction false} HistoryKeepsFitting(operations: seq<Operation>, tenant: string, domain: string,
        model: Security.SecurityModel)
    requires forall o | o in operations :: CheckedBy(o, tenant, domain, model)
    ensures Fitting(RunAll(START, operations).0.db, tenant, domain, model)
    decreases |operations|
  {
    hide Perform;
    hide DirtyAfter;
    if operations != [] {
      var before := operations[..|operations| - 1];
      HistoryKeepsFitting(before, tenant, domain, model);
      PerformKeepsFitting(RunAll(START, before).0, operations[|before|], tenant, domain, model);
    }
  }

  /** A chunk that a request may get: the stored chunk of the current version of its source. */
  ghost predicate IsServed(system: System, q: Graph.Request, n: Node, x: Chunk) {
    var s := SourceKey(q.scope.tenant, q.scope.domain, n.source);
    && s in system.db.sources
    && var v := VersionKey(s, system.db.sources[s].version);
    && v in system.db.versions && x in system.db.versions[v].listing && x.id == n.chunk
    && Security.MemoryFilter(q.scope, Document(s, x)) == Ok(true)
  }

  /** The index holds the same chunk under the same version. */
  ghost predicate IsIndexedAs(system: System, s: SourceKey, x: Chunk) {
    && s in system.db.sources
    && ObjectKey(s, x.id) in system.index
    && system.index[ObjectKey(s, x.id)] == Entry(system.db.sources[s].version, x)
  }

  lemma ServedChunk(system: System, q: Graph.Request, st: Graph.Store, row: Graph.ChunkRow) returns (x: Chunk)
    requires Serves(st, system.db) && row in st.chunks && Graph.VisibleRow(st, q, row)
    requires Security.MemoryFilter(q.scope, row.chunk) == Ok(true)
    ensures IsServed(system, q, row.node, x)
  {
    hide Security.MemoryFilter;
    assert StoredRow(system.db, row);
    var v := VersionOfRow(row);
    x :| x in system.db.versions[v].listing && x.id == row.node.chunk && row.chunk == Document(v.source, x);
    assert InRequest(q, v.source);
  }

  lemma AgreeingChunkIsIndexed(system: System, q: Graph.Request, n: Node, x: Chunk)
    requires Valid(system.db) && IsServed(system, q, n, x)
    requires Agrees(system, SourceKey(q.scope.tenant, q.scope.domain, n.source))
    ensures IsIndexedAs(system, SourceKey(q.scope.tenant, q.scope.domain, n.source), x)
  {
    hide Security.MemoryFilter;
    hide JobsValid;
    hide SourcesValid;
    hide RelationshipsValid;
    var s := SourceKey(q.scope.tenant, q.scope.domain, n.source);
    var listing := system.db.versions[VersionKey(s, system.db.sources[s].version)].listing;
    assert x in Elements(listing);
    assert HasChunk(Elements(listing), x.id);
    var y := system.index[ObjectKey(s, x.id)].chunk;
    var i :| 0 <= i < |listing| && listing[i] == x;
    var j :| 0 <= j < |listing| && listing[j] == y;
    assert i == j;
  }

  /** After any history with failures anywhere, and any limits: what an expansion returns are
      chunks of current versions, each on a best shortest walk, which the check in memory passes
      too and which the index holds under the same version unless the last change of its index
      objects did not succeed. */
  lemma IngestedHitsAreSound(operations: seq<Operation>, q: Graph.Request, st: Graph.Store, h: Graph.Hit) returns (x: Chunk)
    requires AllPossible(operations)
    requires forall o | o in operations :: CheckedBy(o, q.scope.tenant, q.scope.domain, q.scope.model)
    requires Serves(st, RunAll(START, operations).0.db)
    requires h in Graph.Expansion(Graph.ViewOf(st, q), q.maxDepth, q.maxNodes)
    ensures Graph.CarriesBestWalk(Graph.ViewOf(st, q), h) && 1 <= h.depth <= q.maxDepth
    ensures var (system, dirty) := RunAll(START, operations);
            var s := SourceKey(q.scope.tenant, q.scope.domain, h.node.source);
            IsServed(system, q, h.node, x) && (s !in dirty ==> IsIndexedAs(system, s, x))
  {
    var (system, dirty) := RunAll(START, operations);
    var s := SourceKey(q.scope.tenant, q.scope.domain, h.node.source);
    HistoryKeepsFitting(operations, q.scope.tenant, q.scope.domain, q.scope.model);
    StoresAgree(operations, s);
    hide RunAll;
    forall row | row in st.chunks && row.chunk.tenant == q.scope.tenant && row.chunk.domain == q.scope.domain
      ensures Security.IngestibleSecurity(q.scope.model, row.chunk.security)
    {
      assert StoredRow(system.db, row);
    }
    GraphTraversal.ReturnedHitsAreSound(st, q, h);
    var row :| row in st.chunks && row.node == h.node && Graph.VisibleRow(st, q, row)
               && Security.MemoryFilter(q.scope, row.chunk) == Ok(true);
    x := ServedChunk(system, q, st, row);
    if s !in dirty { AgreeingChunkIsIndexed(system, q, h.node, x); }
  }

  // ---------------------------------------------------------- from a command to the next request

  /** A finished ingestion of a new version: its pointer names the version, which is stored with the
      command's chunks, and the table holds a row for each relationship of the command. */
  lemma IngestedVersionIsCurrent(profile: Security.DomainProfile, system: System, c: Command, fuel: Fuel)
    requires Valid(system.db) && WellFormed(c) && VersionKey(c.source, c.version) !in system.db.versions
    requires Ingest(profile, system, c, fuel).ending.Done?
    ensures var db, v := Ingest(profile, system, c, fuel).system.db, VersionKey(c.source, c.version);
            && IsCurrent(db, v) && v in db.versions && db.versions[v].listing == c.chunks
            && forall row: Row | row.owner == v :: row in db.relationships <==> row.relationship in c.relationships
  {
    hide Process;
    hide Admits;
    hide Valid;
    hide WellFormed;
    var v := VersionKey(c.source, c.version);
    var staged := Stage(system.db, c);
    IngestEffect(profile, system, c, fuel);
    StagingExactly(system.db, c);
    FreshVersionHasNoJob(system.db, c);
    NoRowsBefore(system.db, v);
    hide Stage;
    hide StageConflicts;
    ProcessKeepsTables(system.(db := staged.0), staged.1.value, c.chunks, Spend(fuel));
  }

  /** No job has the key of a command whose version is new, unless staging conflicts. */
  lemma FreshVersionHasNoJob(db: Db, c: Command)
    requires Valid(db) && VersionKey(c.source, c.version) !in db.versions && Stage(db, c).1.Ok?
    ensures JobKeyOf(c) !in db.byKey
  {
    hide PayloadOf;
    if KeyOf(c) in db.byKey {
      PayloadSaysTheSame(PayloadOf(c), c);
      JobVersionExists(db, db.byKey[KeyOf(c)]);
    }
  }

  lemma NoRowsBefore(db: Db, v: VersionKey)
    requires Valid(db) && v !in db.versions
    ensures forall row | row in db.relationships :: row.owner != v
  {
  }

  lemma ProcessKeepsTables(system: System, id: nat, chunks: seq<Chunk>, fuel: Fuel)
    ensures var db := Process(system, id, chunks, fuel).system.db;
            db.versions == system.db.versions && db.relationships == system.db.relationships
  {
    hide ReplaceSource;
  }

  /** End to end: what a finished ingestion of a new version relates, the next request follows. For
      every relationship of the command of a wanted kind, a seed at its start and the direction
      outgoing (or both), the end is found if it is a shown chunk and no seed; so it is answered,
      unless the answer is full with hits before it. */
  lemma IngestedRelationshipIsFollowed(profile: Security.DomainProfile, system: System, c: Command, fuel: Fuel,
        st: Graph.Store, q: Graph.Request, r: Relationship, i: nat)
    requires Valid(system.db) && WellFormed(c) && VersionKey(c.source, c.version) !in system.db.versions
    requires Ingest(profile, system, c, fuel).ending.Done? && Serves(st, Ingest(profile, system, c, fuel).system.db)
    requires r in c.relationships && Wanted(q, r.kind) && InRequest(q, c.source)
    requires i < |q.seeds| && q.seeds[i].node == r.from && q.direction != Graph.Incoming && q.maxDepth >= 1
    requires GraphAnswers.Shows(st, q, r.to) && !GraphAnswers.IsSeed(q, r.to)
    ensures GraphAnswers.Found(st, q, r.to)
    ensures var hits := Graph.Expansion(Graph.ViewOf(st, q), q.maxDepth, q.maxNodes);
            |hits| == q.maxNodes || exists h :: h in hits && h.node == r.to
  {
    hide Ingest;
    hide Valid;
    hide WellFormed;
    hide GraphAnswers.Answers;
    hide Graph.ViewOf;
    hide Graph.Expansion;
    var v := VersionKey(c.source, c.version);
    IngestedVersionIsCurrent(profile, system, c, fuel);
    var row := Row(v, r);
    assert row in st.relationships;
    assert GraphAnswers.Follows(st, q, r.from, GraphAnswers.Leg(r.kind, r.to));
    var k := GraphAnswers.EntryOf(q, |q.seeds|, r.from);
    var trail := GraphAnswers.Trail(k, [GraphAnswers.Leg(r.kind, r.to)]);
    assert GraphAnswers.Arrives(st, q, trail, r.to);
    hide Serves;
    GraphAnswers.ExpansionAnswers(st, q);
  }

  /** The end is shown if the subject may see it: within the source, the command's own chunk. */
  lemma OwnChunkIsShown(profile: Security.DomainProfile, system: System, c: Command, fuel: Fuel, st: Graph.Store,
        q: Graph.Request, x: Chunk)
    requires Valid(system.db) && WellFormed(c) && VersionKey(c.source, c.version) !in system.db.versions
    requires Ingest(profile, system, c, fuel).ending.Done? && Serves(st, Ingest(profile, system, c, fuel).system.db)
    requires x in c.chunks && InRequest(q, c.source) && Shown(q, c.source, x)
    ensures GraphAnswers.Shows(st, q, Node(c.source.source, x.id))
  {
    hide Ingest;
    hide Valid;
    hide WellFormed;
    IngestedVersionIsCurrent(profile, system, c, fuel);
    var db := Ingest(profile, system, c, fuel).system.db;
    assert Visitable(db, q, Node(c.source.source, x.id));
    ViewOfTables(st, db, q);
    GraphAnswers.ShowsIsVisible(st, q, Node(c.source.source, x.id));
  }
}
