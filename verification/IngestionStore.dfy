/** The ingestion tables and their transactions as functions on a database value, and what any
    interleaving of transactions keeps.
 */
module IngestionStore {
  import opened Outcomes
  import opened Records
  import Security

  datatype JobKey = JobKey(tenant: string, domain: string, key: string)

  datatype Chunk = Chunk(id: string, body: string, acl: set<string>, security: Security.Labels)

  datatype Command = Command(
    key: string, source: SourceKey, version: string, metadata: string, chunks: seq<Chunk>, relationships: seq<Relationship>)

  /** The canonical payload that is hashed: chunks and relationships are sorted by their unique
      keys, so their order does not count, and the idempotency key is not part of it. */
  datatype Payload = Payload(version: VersionKey, metadata: string, chunks: set<Chunk>, relationships: set<Relationship>)

  datatype Status = Staged | Indexing | Indexed | Failed

  datatype Job = Job(version: VersionKey, key: JobKey, hash: Payload, status: Status, attempts: nat)

  /** A stored version keeps its chunks in the order of their position. */
  datatype Version = Version(hash: Payload, listing: seq<Chunk>)

  datatype Pointer = Pointer(version: string, job: nat)

  /** `byKey` is the unique index on idempotency keys; job identifiers are drawn fresh. */
  datatype Db = Db(
    jobs: map<nat, Job>, byKey: map<JobKey, nat>, versions: map<VersionKey, Version>,
    sources: map<SourceKey, Pointer>, relationships: set<Row>, nextJob: nat)

  datatype IngestError = Conflict | InvalidTransition | Unavailable

  function Elements<T>(s: seq<T>): set<T> { set x | x in s }

  function VersionOf(c: Command): VersionKey { VersionKey(c.source, c.version) }

  function KeyOf(c: Command): JobKey { JobKey(c.source.tenant, c.source.domain, c.key) }

  function PayloadOf(c: Command): Payload {
    Payload(VersionOf(c), c.metadata, Elements(c.chunks), Elements(c.relationships))
  }

  predicate UniqueChunkIds(chunks: seq<Chunk>) {
    forall i, j :: 0 <= i < j < |chunks| ==> chunks[i].id != chunks[j].id
  }

  /** What the constructor of a command guarantees. */
  predicate WellFormed(c: Command) {
    && c.chunks != [] && UniqueChunkIds(c.chunks)
    && forall r | r in c.relationships ::
         && r.from.source == c.source.source
         && (exists x :: x in c.chunks && x.id == r.from.chunk)
         && (r.to.source == c.source.source ==> exists x :: x in c.chunks && x.id == r.to.chunk)
  }

  function HasChunk(chunks: set<Chunk>, id: string): bool { exists x :: x in chunks && x.id == id }

  /** `_target_exists`: the node is a chunk of its source's current version. */
  predicate TargetExists(db: Db, owner: SourceKey, node: Node) {
    var s := SourceKey(owner.tenant, owner.domain, node.source);
    && s in db.sources
    && var v := VersionKey(s, db.sources[s].version);
    && v in db.versions && HasChunk(Elements(db.versions[v].listing), node.chunk)
  }

  /** The chunks that a loaded job carries. */
  function JobChunks(db: Db, id: nat): seq<Chunk> {
    if id in db.jobs && db.jobs[id].version in db.versions then db.versions[db.jobs[id].version].listing else []
  }

  function RowsOf(c: Command): set<Row> { set r | r in c.relationships :: Row(VersionOf(c), r) }

  // ------------------------------------------------------------------------ transactions

  /** The inserts of a new source version. */
  function WithVersion(db: Db, c: Command): Db {
    db.(versions := db.versions[VersionOf(c) := Version(PayloadOf(c), c.chunks)],
        relationships := db.relationships + RowsOf(c))
  }

  /** The insert of a new job. */
  function WithJob(db: Db, c: Command): Db {
    db.(jobs := db.jobs[db.nextJob := Job(VersionOf(c), KeyOf(c), PayloadOf(c), Staged, 0)],
        byKey := db.byKey[KeyOf(c) := db.nextJob],
        nextJob := db.nextJob + 1)
  }

  predicate TargetsKnown(db: Db, c: Command) {
    forall r | r in c.relationships && r.to.source != c.source.source :: TargetExists(db, c.source, r.to)
  }

  function Stage(db: Db, c: Command): (Db, Result<nat, IngestError>) {
    if KeyOf(c) in db.byKey then
      var id := db.byKey[KeyOf(c)];
      if id in db.jobs && db.jobs[id].hash == PayloadOf(c) then (db, Ok(id)) else (db, Err(Conflict))
    else if VersionOf(c) in db.versions then
      if db.versions[VersionOf(c)].hash != PayloadOf(c) then (db, Err(Conflict))
      else (WithJob(db, c), Ok(db.nextJob))
    else if !TargetsKnown(db, c) then (db, Err(Conflict))
    else (WithJob(WithVersion(db, c), c), Ok(db.nextJob))
  }

  function MarkIndexing(db: Db, id: nat): (Db, Result<(), IngestError>) {
    if id in db.jobs && db.jobs[id].status != Indexed then
      (db.(jobs := db.jobs[id := db.jobs[id].(status := Indexing, attempts := db.jobs[id].attempts + 1)]), Ok(()))
    else (db, Err(InvalidTransition))
  }

  function MarkIndexed(db: Db, id: nat): (Db, Result<(), IngestError>) {
    if id in db.jobs && db.jobs[id].status == Indexing then
      var job := db.jobs[id];
      (db.(jobs := db.jobs[id := job.(status := Indexed)],
           sources := db.sources[job.version.source := Pointer(job.version.version, id)]), Ok(()))
    else (db, Err(InvalidTransition))
  }

  function MarkFailed(db: Db, id: nat): (Db, Result<(), IngestError>) {
    if id in db.jobs && db.jobs[id].status == Indexing then
      (db.(jobs := db.jobs[id := db.jobs[id].(status := Failed)]), Ok(()))
    else (db, Err(InvalidTransition))
  }

  /** The constraints of the relationship table: a row starts at its owner, and at a chunk that its
      owner's version has. */
  predicate RowAllowed(db: Db, row: Row) {
    && row.relationship.from.source == row.owner.source.source
    && row.owner in db.versions && HasChunk(Elements(db.versions[row.owner].listing), row.relationship.from.chunk)
  }

  predicate Publishable(db: Db, c: Command) {
    && c.source in db.sources && db.sources[c.source].version == c.version
    && forall r | r in c.relationships :: TargetExists(db, c.source, r.to) && RowAllowed(db, Row(VersionOf(c), r))
  }

  /** What a publication raises: a missing target is a conflict, a violated constraint an error of
      the database. */
  function PublishError(db: Db, c: Command, from: nat := 0): IngestError
    decreases |c.relationships| - from
  {
    if from >= |c.relationships| then Conflict
    else if !TargetExists(db, c.source, c.relationships[from].to) then Conflict
    else if !RowAllowed(db, Row(VersionOf(c), c.relationships[from])) then Unavailable
    else PublishError(db, c, from + 1)
  }

  function ReplaceRelationships(db: Db, c: Command): (Db, Result<(), IngestError>) {
    if Publishable(db, c) then
      (db.(relationships := (set row | row in db.relationships && row.owner != VersionOf(c)) + RowsOf(c)), Ok(()))
    else if c.source !in db.sources || db.sources[c.source].version != c.version then (db, Err(Conflict))
    else (db, Err(PublishError(db, c)))
  }

  predicate Touches(row: Row, s: SourceKey) {
    && row.owner.source.tenant == s.tenant && row.owner.source.domain == s.domain
    && (row.relationship.from.source == s.source || row.relationship.to.source == s.source)
  }

  function DeleteSource(db: Db, s: SourceKey): Db {
    db.(relationships := (set row | row in db.relationships && !Touches(row, s)), sources := db.sources - {s})
  }

  // ---------------------------------------------------------------------------- invariant

  ghost predicate JobsValid(db: Db) {
    && (forall id | id in db.jobs ::
          var job := db.jobs[id];
          && id < db.nextJob
          && job.version in db.versions && db.versions[job.version].hash == job.hash
          && job.key in db.byKey && db.byKey[job.key] == id)
    && forall k | k in db.byKey :: db.byKey[k] in db.jobs && db.jobs[db.byKey[k]].key == k
  }

  ghost predicate VersionsValid(db: Db) {
    forall v | v in db.versions ::
      && db.versions[v].hash.version == v && db.versions[v].hash.chunks == Elements(db.versions[v].listing)
      && UniqueChunkIds(db.versions[v].listing)
  }

  ghost predicate ChunkIdsUnique(chunks: set<Chunk>) {
    forall x, y | x in chunks && y in chunks && x.id == y.id :: x == y
  }

  /** Every stored version was staged by some job. */
  ghost predicate VersionsStaged(db: Db) {
    forall v | v in db.versions :: exists id :: id in db.jobs && db.jobs[id].version == v
  }

  /** Every source pointer names an indexed job of that same source and version. */
  ghost predicate SourcesValid(db: Db) {
    forall s | s in db.sources ::
      var p := db.sources[s];
      p.job in db.jobs && db.jobs[p.job].status == Indexed && db.jobs[p.job].version == VersionKey(s, p.version)
  }

  /** Every relationship row starts at a chunk of the version that owns it. */
  ghost predicate RelationshipsValid(db: Db) {
    forall row | row in db.relationships ::
      && row.owner in db.versions && row.relationship.from.source == row.owner.source.source
      && HasChunk(Elements(db.versions[row.owner].listing), row.relationship.from.chunk)
  }

  ghost predicate Valid(db: Db) {
    JobsValid(db) && VersionsValid(db) && SourcesValid(db) && RelationshipsValid(db)
  }

  const EMPTY: Db := Db(map[], map[], map[], map[], {}, 0)

  lemma EmptyIsValid()
    ensures Valid(EMPTY)
  {
  }

  lemma ChunkIdsIdentify(c: Command)
    requires UniqueChunkIds(c.chunks)
    ensures ChunkIdsUnique(Elements(c.chunks))
  {
    forall x, y | x in Elements(c.chunks) && y in Elements(c.chunks) && x.id == y.id ensures x == y {
      var i :| 0 <= i < |c.chunks| && c.chunks[i] == x;
      var j :| 0 <= j < |c.chunks| && c.chunks[j] == y;
      assert !(i < j) && !(j < i);
    }
  }

  lemma WithVersionKeepsValid(db: Db, c: Command)
    requires Valid(db) && WellFormed(c) && VersionOf(c) !in db.versions
    ensures Valid(WithVersion(db, c))
  {
    hide HasChunk;
    hide UniqueChunkIds;
    var next := WithVersion(db, c);
    RowsAreRooted(c);
    hide RowsOf;
    assert JobsValid(next) by { hide VersionsValid; hide SourcesValid; hide RelationshipsValid; }
    assert VersionsValid(next) by { hide JobsValid; hide SourcesValid; hide RelationshipsValid; }
    assert SourcesValid(next) by { hide VersionsValid; hide RelationshipsValid; hide JobsValid; }
    assert RelationshipsValid(next) by { hide JobsValid; hide VersionsValid; hide SourcesValid; }
  }

  lemma WithJobKeepsJobs(db: Db, c: Command)
    requires JobsValid(db) && VersionOf(c) in db.versions && db.versions[VersionOf(c)].hash == PayloadOf(c)
    requires KeyOf(c) !in db.byKey
    ensures JobsValid(WithJob(db, c))
  {
    hide PayloadOf;
  }

  lemma WithJobKeepsValid(db: Db, c: Command)
    requires Valid(db) && VersionOf(c) in db.versions && db.versions[VersionOf(c)].hash == PayloadOf(c)
    requires KeyOf(c) !in db.byKey
    ensures Valid(WithJob(db, c))
  {
    hide HasChunk;
    hide UniqueChunkIds;
    hide PayloadOf;
    var next := WithJob(db, c);
    assert JobsValid(next) by { hide VersionsValid; hide SourcesValid; hide RelationshipsValid; WithJobKeepsJobs(db, c); }
    assert VersionsValid(next) by { hide JobsValid; hide SourcesValid; hide RelationshipsValid; }
    assert SourcesValid(next) by { hide VersionsValid; hide RelationshipsValid; }
    assert RelationshipsValid(next) by { hide JobsValid; hide VersionsValid; hide SourcesValid; }
  }

  lemma StageKeepsValid(db: Db, c: Command)
    requires Valid(db) && WellFormed(c)
    ensures Valid(Stage(db, c).0)
  {
    hide JobsValid;
    hide VersionsValid;
    hide SourcesValid;
    hide RelationshipsValid;
    hide WellFormed;
    hide TargetsKnown;
    hide PayloadOf;
    if KeyOf(c) !in db.byKey {
      if VersionOf(c) in db.versions {
        if db.versions[VersionOf(c)].hash == PayloadOf(c) { WithJobKeepsValid(db, c); }
      } else {
        WithVersionKeepsValid(db, c);
        WithJobKeepsValid(WithVersion(db, c), c);
      }
    }
  }

  lemma RowsAreRooted(c: Command)
    requires WellFormed(c)
    ensures forall row | row in RowsOf(c) ::
              && row.owner == VersionOf(c) && row.relationship.from.source == c.source.source
              && HasChunk(Elements(c.chunks), row.relationship.from.chunk)
  {
    forall row | row in RowsOf(c) ensures HasChunk(Elements(c.chunks), row.relationship.from.chunk) {
      var r :| r in c.relationships && row == Row(VersionOf(c), r);
      var x :| x in c.chunks && x.id == r.from.chunk;
      assert x in Elements(c.chunks);
    }
  }

  lemma StatusChangeKeepsJobs(db: Db, id: nat, job: Job)
    requires JobsValid(db) && id in db.jobs
    requires job.version == db.jobs[id].version && job.key == db.jobs[id].key && job.hash == db.jobs[id].hash
    ensures JobsValid(db.(jobs := db.jobs[id := job]))
  {
  }

  /** Transactions that change one job's status. */
  lemma StatusChangeKeepsValid(db: Db, id: nat, job: Job)
    requires Valid(db) && id in db.jobs
    requires job.version == db.jobs[id].version && job.key == db.jobs[id].key && job.hash == db.jobs[id].hash
    requires db.jobs[id].status == Indexed ==> job.status == Indexed
    ensures Valid(db.(jobs := db.jobs[id := job]))
  {
    hide HasChunk;
    hide UniqueChunkIds;
    var next := db.(jobs := db.jobs[id := job]);
    assert JobsValid(next) by { hide VersionsValid; hide SourcesValid; hide RelationshipsValid; StatusChangeKeepsJobs(db, id, job); }
    assert VersionsValid(next) by { hide JobsValid; hide SourcesValid; hide RelationshipsValid; }
    assert SourcesValid(next) by { hide VersionsValid; hide RelationshipsValid; hide JobsValid; }
    assert RelationshipsValid(next) by { hide JobsValid; hide VersionsValid; hide SourcesValid; }
  }

  lemma PointerKeepsValid(db: Db, id: nat)
    requires Valid(db) && id in db.jobs && db.jobs[id].status == Indexed
    ensures Valid(db.(sources := db.sources[db.jobs[id].version.source := Pointer(db.jobs[id].version.version, id)]))
  {
    hide HasChunk;
    hide UniqueChunkIds;
    var next := db.(sources := db.sources[db.jobs[id].version.source := Pointer(db.jobs[id].version.version, id)]);
    assert JobsValid(next) by { hide VersionsValid; hide SourcesValid; hide RelationshipsValid; }
    assert VersionsValid(next) by { hide JobsValid; hide SourcesValid; hide RelationshipsValid; }
    assert SourcesValid(next) by { hide VersionsValid; hide RelationshipsValid; hide JobsValid; }
    assert RelationshipsValid(next) by { hide JobsValid; hide VersionsValid; hide SourcesValid; }
  }

  lemma MarkIndexedKeepsValid(db: Db, id: nat)
    requires Valid(db)
    ensures Valid(MarkIndexed(db, id).0)
  {
    hide Valid;
    if MarkIndexed(db, id).1.Ok? {
      var indexed := db.(jobs := db.jobs[id := db.jobs[id].(status := Indexed)]);
      StatusChangeKeepsValid(db, id, db.jobs[id].(status := Indexed));
      PointerKeepsValid(indexed, id);
    }
  }

  lemma ReplaceKeepsValid(db: Db, c: Command)
    requires Valid(db)
    ensures Valid(ReplaceRelationships(db, c).0)
  {
    hide TargetExists;
    hide HasChunk;
    hide UniqueChunkIds;
    var next := ReplaceRelationships(db, c).0;
    if Publishable(db, c) {
      assert forall row | row in RowsOf(c) :: RowAllowed(db, row);
      hide RowsOf;
      assert JobsValid(next) by { hide VersionsValid; hide SourcesValid; hide RelationshipsValid; }
      assert VersionsValid(next) by { hide JobsValid; hide SourcesValid; hide RelationshipsValid; }
      assert SourcesValid(next) by { hide VersionsValid; hide RelationshipsValid; hide JobsValid; }
      assert RelationshipsValid(next) by { hide JobsValid; hide VersionsValid; hide SourcesValid; }
    }
  }

  lemma DeleteKeepsValid(db: Db, s: SourceKey)
    requires Valid(db)
    ensures Valid(DeleteSource(db, s))
  {
    hide HasChunk;
    hide UniqueChunkIds;
    var next := DeleteSource(db, s);
    assert JobsValid(next) by { hide VersionsValid; hide SourcesValid; hide RelationshipsValid; }
    assert VersionsValid(next) by { hide JobsValid; hide SourcesValid; hide RelationshipsValid; }
    assert SourcesValid(next) by { hide VersionsValid; hide RelationshipsValid; hide JobsValid; }
    assert RelationshipsValid(next) by { hide JobsValid; hide VersionsValid; hide SourcesValid; }
  }

  // ------------------------------------------------------------------------- interleavings

  /** Transactions of any number of workers, in the order they commit. */
  datatype Event =
    | Staging(command: Command)
    | EnterIndexing(job: nat)
    | EnterIndexed(job: nat)
    | EnterFailed(job: nat)
    | Publish(command: Command)
    | Delete(source: SourceKey)

  /** A staged command went through its constructor. */
  ghost predicate Admissible(e: Event) { e.Staging? ==> WellFormed(e.command) }

  function Apply(db: Db, e: Event): Db {
    match e
    case Staging(c) => Stage(db, c).0
    case EnterIndexing(id) => MarkIndexing(db, id).0
    case EnterIndexed(id) => MarkIndexed(db, id).0
    case EnterFailed(id) => MarkFailed(db, id).0
    case Publish(c) => ReplaceRelationships(db, c).0
    case Delete(s) => DeleteSource(db, s)
  }

  function ApplyAll(db: Db, events: seq<Event>): Db {
    if events == [] then db else Apply(ApplyAll(db, events[..|events| - 1]), events[|events| - 1])
  }

  ghost predicate AllAdmissible(events: seq<Event>) { forall e | e in events :: Admissible(e) }

  lemma ApplyKeepsValid(db: Db, e: Event)
    requires Valid(db) && Admissible(e)
    ensures Valid(Apply(db, e))
  {
    hide Valid;
    hide WellFormed;
    hide TargetExists;
    hide Stage;
    hide ReplaceRelationships;
    hide DeleteSource;
    match e
    case Staging(c) => StageKeepsValid(db, c);
    case EnterIndexing(id) =>
      if MarkIndexing(db, id).1.Ok? {
        StatusChangeKeepsValid(db, id, db.jobs[id].(status := Indexing, attempts := db.jobs[id].attempts + 1));
      }
    case EnterIndexed(id) => MarkIndexedKeepsValid(db, id);
    case EnterFailed(id) =>
      if MarkFailed(db, id).1.Ok? { StatusChangeKeepsValid(db, id, db.jobs[id].(status := Failed)); }
    case Publish(c) => ReplaceKeepsValid(db, c);
    case Delete(s) => DeleteKeepsValid(db, s);
  }

  /** What one transaction never undoes. */
  ghost predicate Extends(before: Db, after: Db) {
    && (forall id | id in before.jobs ::
          && id in after.jobs
          && after.jobs[id].version == before.jobs[id].version
          && after.jobs[id].key == before.jobs[id].key
          && after.jobs[id].hash == before.jobs[id].hash
          && after.jobs[id].attempts >= before.jobs[id].attempts
          && (before.jobs[id].status == Indexed ==> after.jobs[id] == before.jobs[id]))
    && (forall k | k in before.byKey :: k in after.byKey && after.byKey[k] == before.byKey[k])
    && (forall v | v in before.versions :: v in after.versions && after.versions[v] == before.versions[v])
  }

  lemma WithVersionExtends(db: Db, c: Command)
    requires VersionOf(c) !in db.versions
    ensures Extends(db, WithVersion(db, c))
  {
    hide PayloadOf;
    hide RowsOf;
  }

  lemma WithJobExtends(before: Db, db: Db, c: Command)
    requires Extends(before, db) && db.jobs == before.jobs && db.byKey == before.byKey && db.nextJob == before.nextJob
    requires JobsValid(before) && KeyOf(c) !in db.byKey
    ensures Extends(before, WithJob(db, c))
  {
    hide PayloadOf;
    hide KeyOf;
    hide VersionOf;
    NextIsFresh(before);
    hide JobsValid;
  }

  lemma NextIsFresh(db: Db)
    requires JobsValid(db)
    ensures db.nextJob !in db.jobs
  {
  }

  lemma ExtendsItself(db: Db)
    ensures Extends(db, db)
  {
  }

  lemma ExtendsTransitive(a: Db, b: Db, c: Db)
    requires Extends(a, b) && Extends(b, c)
    ensures Extends(a, c)
  {
  }

  lemma StageExtends(db: Db, c: Command)
    requires JobsValid(db)
    ensures Extends(db, Stage(db, c).0)
  {
    hide TargetsKnown;
    hide PayloadOf;
    hide JobsValid;
    hide Extends;
    hide WithJob;
    ExtendsItself(db);
    if KeyOf(c) !in db.byKey {
      if VersionOf(c) in db.versions {
        WithJobExtends(db, db, c);
      } else {
        WithVersionExtends(db, c);
        WithJobExtends(db, WithVersion(db, c), c);
      }
    }
  }

  lemma ApplyExtends(db: Db, e: Event)
    requires JobsValid(db)
    ensures Extends(db, Apply(db, e))
  {
    hide Publishable;
    hide JobsValid;
    hide Stage;
    match e
    case Staging(c) => StageExtends(db, c);
    case _ =>
  }

  lemma StageKeepsVersionsStaged(db: Db, c: Command)
    requires JobsValid(db) && VersionsStaged(db)
    ensures VersionsStaged(Stage(db, c).0)
  {
    hide TargetsKnown;
    hide PayloadOf;
    hide JobsValid;
    StageExtends(db, c);
    var after := Stage(db, c).0;
    forall v | v in after.versions ensures exists id :: id in after.jobs && after.jobs[id].version == v {
      if v in db.versions {
        var id :| id in db.jobs && db.jobs[id].version == v;
        assert after.jobs[id].version == v;
      } else {
        assert after.jobs[db.nextJob].version == v;
      }
    }
  }

  lemma OnlyStagingStores(db: Db, e: Event)
    requires !e.Staging?
    ensures Apply(db, e).versions == db.versions
  {
    hide Publishable;
  }

  lemma ApplyKeepsVersionsStaged(db: Db, e: Event)
    requires JobsValid(db) && VersionsStaged(db)
    ensures VersionsStaged(Apply(db, e))
  {
    hide JobsValid;
    hide Stage;
    if e.Staging? {
      StageKeepsVersionsStaged(db, e.command);
    } else {
      OnlyStagingStores(db, e);
      ApplyExtends(db, e);
      hide Apply;
      var after := Apply(db, e);
      forall v | v in after.versions ensures exists id :: id in after.jobs && after.jobs[id].version == v {
        var id :| id in db.jobs && db.jobs[id].version == v;
        assert after.jobs[id].version == v;
      }
    }
  }

  /** Over any interleaving: the tables stay consistent, an indexed job never changes again,
      versions and payloads are immutable, and a key keeps naming one payload. */
  lemma {:induction false} InterleavingKeeps(db: Db, events: seq<Event>, k: nat)
    requires Valid(db) && AllAdmissible(events) && k <= |events|
    ensures Valid(ApplyAll(db, events))
    ensures VersionsStaged(db) ==> VersionsStaged(ApplyAll(db, events))
    ensures Extends(ApplyAll(db, events[..k]), ApplyAll(db, events))
    decreases |events|
  {
    hide JobsValid;
    hide VersionsValid;
    hide SourcesValid;
    hide RelationshipsValid;
    hide VersionsStaged;
    hide Admissible;
    hide Apply;
    hide Extends;
    ExtendsItself(ApplyAll(db, events));
    if events == [] {
      assert events[..k] == events;
    } else {
      var before := events[..|events| - 1];
      InterleavingKeeps(db, before, if k < |events| then k else 0);
      ApplyKeepsValid(ApplyAll(db, before), events[|before|]);
      ApplyExtends(ApplyAll(db, before), events[|before|]);
      if VersionsStaged(db) { ApplyKeepsVersionsStaged(ApplyAll(db, before), events[|before|]); }
      if k < |events| {
        assert before[..k] == events[..k];
        ExtendsTransitive(ApplyAll(db, events[..k]), ApplyAll(db, before), ApplyAll(db, events));
      } else {
        assert events[..k] == events;
      }
    }
  }

  /** Successful entries of a job into indexing during a run. */
  ghost function Entries(db: Db, events: seq<Event>, id: nat): nat {
    if events == [] then 0
    else
      var last := events[|events| - 1];
      Entries(db, events[..|events| - 1], id)
      + if last == EnterIndexing(id) && MarkIndexing(ApplyAll(db, events[..|events| - 1]), id).1.Ok? then 1 else 0
  }

  function Attempts(db: Db, id: nat): nat { if id in db.jobs then db.jobs[id].attempts else 0 }

  /** `attempts` counts exactly the successful entries, whoever made them. */
  lemma {:induction false} AttemptsCountEntries(db: Db, events: seq<Event>, id: nat)
    requires Valid(db) && AllAdmissible(events)
    ensures Attempts(ApplyAll(db, events), id) == Attempts(db, id) + Entries(db, events, id)
    decreases |events|
  {
    hide JobsValid;
    hide VersionsValid;
    hide SourcesValid;
    hide RelationshipsValid;
    hide Admissible;
    hide Extends;
    hide VersionsStaged;
    hide Apply;
    hide MarkIndexing;
    hide Attempts;
    if events != [] {
      var before := events[..|events| - 1];
      AttemptsCountEntries(db, before, id);
      InterleavingKeeps(db, before, 0);
      AttemptsOfOneEvent(ApplyAll(db, before), events[|before|], id);
    }
  }

  lemma AttemptsOfOneEvent(db: Db, e: Event, id: nat)
    requires JobsValid(db)
    ensures Attempts(Apply(db, e), id) ==
            Attempts(db, id) + if e == EnterIndexing(id) && MarkIndexing(db, id).1.Ok? then 1 else 0
  {
    hide TargetExists;
    hide Publishable;
  }
}
