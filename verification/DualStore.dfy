/** Ingestion over both stores: the transactional tables and the vector index, which is changed
    one call at a time and may fail between any two calls.
 */
module DualStore {
  import opened Outcomes
  import opened IngestionStore
  import opened Records
  import Security

  datatype ObjectKey = ObjectKey(source: SourceKey, chunk: string)

  datatype Entry = Entry(version: string, chunk: Chunk)

  type Index = map<ObjectKey, Entry>

  datatype System = System(db: Db, index: Index)

  /** How many calls to a store succeed before one raises, and whether the writes made while
      handling that failure succeed: marking the job failed, and marking the import failed. */
  datatype Fuel = Unlimited | Left(calls: nat, jobHandled: bool, importHandled: bool)

  predicate Exhausted(f: Fuel) { f.Left? && f.calls == 0 }

  function Spend(f: Fuel): Fuel
    requires !Exhausted(f)
  {
    if f.Left? then f.(calls := f.calls - 1) else f
  }

  /** The same handlers are left, and no calls appeared. */
  predicate Later(before: Fuel, after: Fuel) {
    if before.Unlimited? then after.Unlimited?
    else
      && after.Left? && after.calls <= before.calls
      && after.jobHandled == before.jobHandled && after.importHandled == before.importHandled
  }

  // --------------------------------------------------------------------------- the index

  function WithoutSource(index: Index, s: SourceKey): Index {
    map k | k in index && k.source != s :: index[k]
  }

  function InsertChunks(index: Index, s: SourceKey, version: string, chunks: seq<Chunk>, fuel: Fuel): (Index, Fuel, bool)
    decreases |chunks|
  {
    if chunks == [] then (index, fuel, true)
    else
      var key := ObjectKey(s, chunks[0].id);
      if Exhausted(fuel) || key in index then (index, fuel, false)
      else InsertChunks(index[key := Entry(version, chunks[0])], s, version, chunks[1..], Spend(fuel))
  }

  /** `replace_source`: embed, delete everything of the source, insert chunk by chunk. */
  function ReplaceSource(index: Index, s: SourceKey, version: string, chunks: seq<Chunk>, fuel: Fuel): (Index, Fuel, bool) {
    if Exhausted(fuel) then (index, fuel, false)
    else if Exhausted(Spend(fuel)) then (index, Spend(fuel), false)
    else InsertChunks(WithoutSource(index, s), s, version, chunks, Spend(Spend(fuel)))
  }

  /** The index holds exactly these chunks for a source, under this version. */
  ghost predicate HoldsExactly(index: Index, s: SourceKey, version: string, chunks: set<Chunk>) {
    forall k: ObjectKey | k.source == s ::
      && (k in index <==> HasChunk(chunks, k.chunk))
      && (k in index ==> index[k].version == version && index[k].chunk in chunks && index[k].chunk.id == k.chunk)
  }

  ghost predicate HoldsNothing(index: Index, s: SourceKey) { forall k | k in index :: k.source != s }

  ghost predicate SameElsewhere(index: Index, index': Index, s: SourceKey) {
    forall k: ObjectKey | k.source != s :: (k in index <==> k in index') && (k in index ==> index'[k] == index[k])
  }

  /** The index holds `done` and some first part of `chunks`. */
  ghost predicate HoldsPart(index: Index, s: SourceKey, version: string, done: seq<Chunk>, chunks: seq<Chunk>) {
    exists n :: 0 <= n <= |chunks| && HoldsExactly(index, s, version, Elements(done + chunks[..n]))
  }

  lemma HoldsNoneOf(index: Index, s: SourceKey, version: string, done: seq<Chunk>, chunks: seq<Chunk>)
    requires HoldsExactly(index, s, version, Elements(done))
    ensures HoldsPart(index, s, version, done, chunks)
  {
    hide HoldsExactly;
    assert done + chunks[..0] == done;
  }

  lemma HoldsOneMore(index: Index, s: SourceKey, version: string, done: seq<Chunk>, chunks: seq<Chunk>)
    requires chunks != [] && HoldsPart(index, s, version, done + [chunks[0]], chunks[1..])
    ensures HoldsPart(index, s, version, done, chunks)
  {
    hide HoldsExactly;
    var n :| 0 <= n <= |chunks[1..]| && HoldsExactly(index, s, version, Elements(done + [chunks[0]] + chunks[1..][..n]));
    assert done + [chunks[0]] + chunks[1..][..n] == done + chunks[..n + 1];
  }

  /** What the index may hold after a stop: the chunks inserted so far. */
  lemma {:induction false} InsertEffect(index: Index, s: SourceKey, version: string, done: seq<Chunk>,
        chunks: seq<Chunk>, fuel: Fuel)
    requires UniqueChunkIds(done + chunks)
    requires HoldsExactly(index, s, version, Elements(done))
    ensures var r := InsertChunks(index, s, version, chunks, fuel);
            && SameElsewhere(index, r.0, s)
            && HoldsPart(r.0, s, version, done, chunks)
            && (r.2 ==> HoldsExactly(r.0, s, version, Elements(done + chunks)))
            && (fuel.Unlimited? ==> r.1 == fuel && r.2)
            && Later(fuel, r.1)
    decreases |chunks|
  {
    hide HoldsExactly;
    hide HoldsPart;
    hide UniqueChunkIds;
    hide HasChunk;
    HoldsNoneOf(index, s, version, done, chunks);
    if chunks == [] {
      assert done + chunks == done;
    } else {
      NewIdIsFree(done, chunks);
      InsertOne(index, s, version, done, chunks[0]);
      if !Exhausted(fuel) {
        var index' := index[ObjectKey(s, chunks[0].id) := Entry(version, chunks[0])];
        assert done + [chunks[0]] + chunks[1..] == done + chunks;
        InsertEffect(index', s, version, done + [chunks[0]], chunks[1..], Spend(fuel));
        HoldsOneMore(InsertChunks(index', s, version, chunks[1..], Spend(fuel)).0, s, version, done, chunks);
      }
    }
  }

  lemma NewIdIsFree(done: seq<Chunk>, chunks: seq<Chunk>)
    requires chunks != [] && UniqueChunkIds(done + chunks)
    ensures !HasChunk(Elements(done), chunks[0].id)
  {
    var all := done + chunks;
    forall x | x in Elements(done) ensures x.id != chunks[0].id {
      var i :| 0 <= i < |done| && done[i] == x;
      assert all[i] == x && all[|done|] == chunks[0];
    }
  }

  lemma InsertOne(index: Index, s: SourceKey, version: string, done: seq<Chunk>, chunk: Chunk)
    requires HoldsExactly(index, s, version, Elements(done)) && !HasChunk(Elements(done), chunk.id)
    ensures HoldsExactly(index[ObjectKey(s, chunk.id) := Entry(version, chunk)], s, version, Elements(done + [chunk]))
    ensures ObjectKey(s, chunk.id) !in index
  {
    var before, after := Elements(done), Elements(done + [chunk]);
    assert after == before + {chunk};
    assert chunk in after;
    forall id ensures HasChunk(after, id) <==> HasChunk(before, id) || id == chunk.id {
      if HasChunk(before, id) {
        var x :| x in before && x.id == id;
        assert x in after;
      }
    }
  }

  lemma ReplaceEffect(index: Index, s: SourceKey, version: string, chunks: seq<Chunk>, fuel: Fuel)
    requires UniqueChunkIds(chunks)
    ensures var r := ReplaceSource(index, s, version, chunks, fuel);
            && SameElsewhere(index, r.0, s)
            && (r.0 == index || HoldsPart(r.0, s, version, [], chunks))
            && (r.2 ==> HoldsExactly(r.0, s, version, Elements(chunks)))
            && (fuel.Unlimited? ==> r.1 == fuel && r.2)
            && Later(fuel, r.1)
  {
    hide InsertChunks;
    if !Exhausted(fuel) && !Exhausted(Spend(fuel)) {
      var cleared := WithoutSource(index, s);
      assert [] + chunks == chunks;
      assert HoldsExactly(cleared, s, version, Elements([]));
      InsertEffect(cleared, s, version, [], chunks, Spend(Spend(fuel)));
    }
  }

  // ----------------------------------------------------------------------------- ingestion

  /** How an ingestion ended: the job was indexed already, it has been indexed now, it raised
      before the index was touched, or while or after it was touched. */
  datatype Ending = Skipped | Done | Rejected | Broken

  datatype Ingested = Ingested(system: System, fuel: Fuel, ending: Ending)

  function HandleFailure(db: Db, id: nat, fuel: Fuel): Db {
    if fuel.Left? && !fuel.jobHandled then db else MarkFailed(db, id).0
  }

  /** `_process` for a job of these chunks, after loading it. */
  function Process(system: System, id: nat, chunks: seq<Chunk>, fuel: Fuel): Ingested {
    if id !in system.db.jobs then Ingested(system, fuel, Rejected)
    else if system.db.jobs[id].status == IngestionStore.Indexed then Ingested(system, fuel, Skipped)
    else if Exhausted(fuel) then Ingested(system, fuel, Rejected)
    else
      var v := system.db.jobs[id].version;
      var indexing := MarkIndexing(system.db, id).0;
      var replaced := ReplaceSource(system.index, v.source, v.version, chunks, Spend(fuel));
      if !replaced.2 || Exhausted(replaced.1) then
        Ingested(System(HandleFailure(indexing, id, replaced.1), replaced.0), replaced.1, Broken)
      else
        Ingested(System(MarkIndexed(indexing, id).0, replaced.0), Spend(replaced.1), Done)
  }

  predicate InDomain(profile: Security.DomainProfile, s: SourceKey) {
    s.tenant == profile.tenant && s.domain == profile.name
  }

  /** `_verify_boundary` with `_validate_document_security`: the domain takes these chunks. */
  predicate Admits(profile: Security.DomainProfile, s: SourceKey, chunks: seq<Chunk>) {
    && InDomain(profile, s)
    && forall x | x in chunks :: x.acl <= profile.allowedAcl && Security.IngestibleSecurity(profile.model, x.security)
  }

  /** `ingest`. A repeated key loads the stored job; a new job carries the command as it came. */
  function Ingest(profile: Security.DomainProfile, system: System, c: Command, fuel: Fuel): Ingested {
    if !Admits(profile, c.source, c.chunks) || Exhausted(fuel) then Ingested(system, fuel, Rejected)
    else
      var staged := Stage(system.db, c);
      if staged.1.Err? then Ingested(system, Spend(fuel), Rejected)
      else
        var chunks := if KeyOf(c) in system.db.byKey then JobChunks(staged.0, staged.1.value) else c.chunks;
        Process(system.(db := staged.0), staged.1.value, chunks, Spend(fuel))
  }

  /** `retry`: the stored job is checked against the domain as it is now. */
  function Reprocess(profile: Security.DomainProfile, system: System, id: nat, fuel: Fuel): Ingested {
    if Exhausted(fuel) then Ingested(system, fuel, Rejected)
    else if id !in system.db.jobs then Ingested(system, Spend(fuel), Rejected)
    else if !Admits(profile, system.db.jobs[id].version.source, JobChunks(system.db, id)) then
      Ingested(system, Spend(fuel), Rejected)
    else Process(system, id, JobChunks(system.db, id), Spend(fuel))
  }

  /** Both stores tell the same story about a source. */
  ghost predicate Agrees(system: System, s: SourceKey) {
    if s in system.db.sources then
      var v := VersionKey(s, system.db.sources[s].version);
      v in system.db.versions && HoldsExactly(system.index, s, v.version, Elements(system.db.versions[v].listing))
    else HoldsNothing(system.index, s)
  }

  /** Nothing about other sources changes: pointers, index objects, stored versions. */
  ghost predicate OnlyTouches(before: System, after: System, s: SourceKey) {
    && SameElsewhere(before.index, after.index, s)
    && (forall t | t != s :: (t in before.db.sources <==> t in after.db.sources)
                             && (t in before.db.sources ==> after.db.sources[t] == before.db.sources[t]))
    && (forall v | v in before.db.versions :: v in after.db.versions && after.db.versions[v] == before.db.versions[v])
    && (forall v: VersionKey | v.source != s :: v in after.db.versions ==> v in before.db.versions)
  }

  lemma OthersKeepAgreeing(before: System, after: System, s: SourceKey, t: SourceKey)
    requires Valid(before.db) && OnlyTouches(before, after, s) && t != s
    ensures Agrees(before, t) <==> Agrees(after, t)
  {
    hide RelationshipsValid;
    if t in before.db.sources {
      assert before.db.jobs[before.db.sources[t].job].version in before.db.versions;
    }
  }

  // ------------------------------------------------------------------ effect of one operation

  /** Only one job's row and the pointer of its source differ. */
  ghost predicate OneJobMoved(before: Db, after: Db, id: nat) {
    && after.versions == before.versions && after.byKey == before.byKey
    && after.relationships == before.relationships && after.nextJob == before.nextJob
    && after.jobs.Keys == before.jobs.Keys && id in before.jobs
    && (forall j | j in before.jobs && j != id :: after.jobs[j] == before.jobs[j])
    && after.jobs[id].version == before.jobs[id].version && after.jobs[id].key == before.jobs[id].key
    && after.jobs[id].hash == before.jobs[id].hash && after.jobs[id].attempts >= before.jobs[id].attempts
    && (forall t | t != before.jobs[id].version.source ::
          (t in after.sources <==> t in before.sources) && (t in before.sources ==> after.sources[t] == before.sources[t]))
  }

  lemma OneJobMovedTransitive(a: Db, b: Db, c: Db, id: nat)
    requires OneJobMoved(a, b, id) && OneJobMoved(b, c, id)
    ensures OneJobMoved(a, c, id)
  {
  }

  lemma OneJobMovedExtends(a: Db, b: Db, id: nat)
    requires OneJobMoved(a, b, id) && !a.jobs[id].status.Indexed?
    ensures Extends(a, b)
  {
  }

  lemma EnterEffect(db: Db, id: nat)
    requires Valid(db) && id in db.jobs && !db.jobs[id].status.Indexed?
    ensures var r := MarkIndexing(db, id);
            && r.1.Ok? && Valid(r.0) && OneJobMoved(db, r.0, id) && r.0.sources == db.sources
            && id in r.0.jobs && r.0.jobs[id].status.Indexing? && r.0.jobs[id].version == db.jobs[id].version
  {
    hide JobsValid;
    hide VersionsValid;
    hide SourcesValid;
    hide RelationshipsValid;
    ApplyKeepsValid(db, EnterIndexing(id));
  }

  lemma FailureEffect(db: Db, id: nat, fuel: Fuel)
    requires Valid(db) && id in db.jobs && db.jobs[id].status.Indexing?
    ensures var r := HandleFailure(db, id, fuel);
            Valid(r) && OneJobMoved(db, r, id) && r.sources == db.sources && id in r.jobs && !r.jobs[id].status.Indexed?
  {
    hide JobsValid;
    hide VersionsValid;
    hide SourcesValid;
    hide RelationshipsValid;
    ApplyKeepsValid(db, EnterFailed(id));
  }

  lemma CompleteEffect(db: Db, id: nat)
    requires Valid(db) && id in db.jobs && db.jobs[id].status.Indexing?
    ensures var r := MarkIndexed(db, id);
            var v := db.jobs[id].version;
            && r.1.Ok? && Valid(r.0) && OneJobMoved(db, r.0, id)
            && id in r.0.jobs && r.0.jobs[id].status.Indexed? && r.0.sources == db.sources[v.source := Pointer(v.version, id)]
  {
    hide JobsValid;
    hide VersionsValid;
    hide SourcesValid;
    hide RelationshipsValid;
    ApplyKeepsValid(db, EnterIndexed(id));
  }

  lemma ProcessEffect(system: System, id: nat, chunks: seq<Chunk>, fuel: Fuel)
    requires Valid(system.db) && UniqueChunkIds(chunks)
    requires id in system.db.jobs && Elements(chunks) == Elements(system.db.versions[system.db.jobs[id].version].listing)
    ensures var r := Process(system, id, chunks, fuel);
            var s := system.db.jobs[id].version.source;
            && Valid(r.system.db) && Extends(system.db, r.system.db)
            && OnlyTouches(system, r.system, s) && OneJobMoved(system.db, r.system.db, id)
            && (r.ending.Skipped? <==> system.db.jobs[id].status.Indexed?)
            && (r.ending.Skipped? || r.ending.Rejected? ==> r.system == system)
            && (r.ending.Broken? ==> r.system.db.sources == system.db.sources && !r.system.db.jobs[id].status.Indexed?)
            && (r.ending.Done? ==>
                  && Agrees(r.system, s) && r.system.db.jobs[id].status.Indexed?
                  && s in r.system.db.sources
                  && VersionKey(s, r.system.db.sources[s].version) == system.db.jobs[id].version)
            && (fuel.Unlimited? ==> r.fuel == fuel && (r.ending.Done? || r.ending.Skipped?))
  {
    hide Valid;
    hide HoldsExactly;
    hide HoldsPart;
    hide HoldsNothing;
    hide SameElsewhere;
    hide ReplaceSource;
    hide UniqueChunkIds;
    hide MarkIndexed;
    hide MarkIndexing;
    hide HandleFailure;
    hide OneJobMoved;
    hide OnlyTouches;
    hide Extends;
    JobVersionExists(system.db, id);
    NothingMoved(system, id);
    if !system.db.jobs[id].status.Indexed? && !Exhausted(fuel) {
      var v := system.db.jobs[id].version;
      var indexing := MarkIndexing(system.db, id).0;
      EnterEffect(system.db, id);
      ReplaceEffect(system.index, v.source, v.version, chunks, Spend(fuel));
      var replaced := ReplaceSource(system.index, v.source, v.version, chunks, Spend(fuel));
      if !replaced.2 || Exhausted(replaced.1) {
        FailureEffect(indexing, id, replaced.1);
        Moved(system, indexing, System(HandleFailure(indexing, id, replaced.1), replaced.0), id);
      } else {
        CompleteEffect(indexing, id);
        Moved(system, indexing, System(MarkIndexed(indexing, id).0, replaced.0), id);
      }
    }
  }

  /** Where the worker stops midway, the failure handler has marked the job as failed, unless its own
      call raised; the attempt has been counted either way. */
  lemma BrokenJobIsFailed(system: System, id: nat, chunks: seq<Chunk>, fuel: Fuel)
    requires id in system.db.jobs
    ensures var r := Process(system, id, chunks, fuel);
            var job := system.db.jobs[id];
            && id in r.system.db.jobs
            && (r.ending.Broken? ==>
                  r.system.db.jobs[id].status == if fuel.Left? && !fuel.jobHandled then Indexing else Failed)
            && (r.ending.Done? ==> r.system.db.jobs[id].status == IngestionStore.Indexed)
            && r.system.db.jobs[id].attempts == job.attempts + if r.ending.Broken? || r.ending.Done? then 1 else 0
  {
    hide ReplaceSource;
    if !Exhausted(fuel) { ReplacingKeepsHandlers(system, id, chunks, Spend(fuel)); }
  }

  lemma ReplacingKeepsHandlers(system: System, id: nat, chunks: seq<Chunk>, fuel: Fuel)
    requires id in system.db.jobs
    ensures var v := system.db.jobs[id].version; Later(fuel, ReplaceSource(system.index, v.source, v.version, chunks, fuel).1)
  {
    var v := system.db.jobs[id].version;
    if !Exhausted(fuel) && !Exhausted(Spend(fuel)) {
      InsertingKeepsHandlers(WithoutSource(system.index, v.source), v.source, v.version, chunks, Spend(Spend(fuel)));
    }
  }

  lemma {:induction false} InsertingKeepsHandlers(index: Index, s: SourceKey, version: string, chunks: seq<Chunk>, fuel: Fuel)
    ensures Later(fuel, InsertChunks(index, s, version, chunks, fuel).1)
    decreases |chunks|
  {
    if chunks != [] {
      var key := ObjectKey(s, chunks[0].id);
      if !Exhausted(fuel) && key !in index {
        InsertingKeepsHandlers(index[key := Entry(version, chunks[0])], s, version, chunks[1..], Spend(fuel));
      }
    }
  }

  lemma NothingMoved(system: System, id: nat)
    requires id in system.db.jobs
    ensures OneJobMoved(system.db, system.db, id) && Extends(system.db, system.db)
    ensures OnlyTouches(system, system, system.db.jobs[id].version.source)
  {
  }

  lemma Moved(before: System, between: Db, after: System, id: nat)
    requires OneJobMoved(before.db, between, id) && OneJobMoved(between, after.db, id)
    requires !before.db.jobs[id].status.Indexed?
    requires SameElsewhere(before.index, after.index, before.db.jobs[id].version.source)
    ensures OneJobMoved(before.db, after.db, id) && Extends(before.db, after.db)
    ensures OnlyTouches(before, after, before.db.jobs[id].version.source)
    ensures after.db.versions == before.db.versions
  {
    OneJobMovedTransitive(before.db, between, after.db, id);
    OneJobMovedExtends(before.db, after.db, id);
  }

  lemma JobVersionExists(db: Db, id: nat)
    requires Valid(db) && id in db.jobs
    ensures db.jobs[id].version in db.versions && db.jobs[id].hash == db.versions[db.jobs[id].version].hash
    ensures Elements(db.versions[db.jobs[id].version].listing) == db.jobs[id].hash.chunks
    ensures UniqueChunkIds(db.versions[db.jobs[id].version].listing)
    ensures db.jobs[id].hash.version == db.jobs[id].version
  {
    hide SourcesValid;
    hide RelationshipsValid;
  }

  lemma TouchesAfterStaging(before: System, staged: Db, after: System, c: Command)
    requires Extends(before.db, staged) && staged.sources == before.db.sources
    requires forall v | v != VersionOf(c) :: v in staged.versions ==> v in before.db.versions
    requires OnlyTouches(System(staged, before.index), after, c.source)
    ensures OnlyTouches(before, after, c.source)
  {
  }

  /** What a command is processed with are its own chunks, in some order. */
  lemma IngestedChunks(db: Db, c: Command)
    requires Valid(db) && WellFormed(c) && Stage(db, c).1.Ok?
    ensures var chunks := if KeyOf(c) in db.byKey then JobChunks(Stage(db, c).0, Stage(db, c).1.value) else c.chunks;
            UniqueChunkIds(chunks) && Elements(chunks) == Elements(c.chunks)
  {
    hide Stage;
    hide Valid;
    StagedJob(db, c);
    ApplyKeepsValid(db, Staging(c));
    JobVersionExists(Stage(db, c).0, Stage(db, c).1.value);
    UniqueIdsOf(c);
  }

  lemma IngestEffect(profile: Security.DomainProfile, system: System, c: Command, fuel: Fuel)
    requires Valid(system.db) && WellFormed(c)
    ensures var r := Ingest(profile, system, c, fuel);
            && Valid(r.system.db) && Extends(system.db, r.system.db)
            && OnlyTouches(system, r.system, c.source)
            && (r.ending.Skipped? ==> r.system == system)
            && (r.ending.Rejected? ==> r.system.index == system.index)
            && (!r.ending.Done? ==> r.system.db.sources == system.db.sources)
            && (r.ending.Done? ==>
                  && Agrees(r.system, c.source)
                  && c.source in r.system.db.sources && r.system.db.sources[c.source].version == c.version)
  {
    hide Valid;
    hide Process;
    hide Agrees;
    hide OnlyTouches;
    hide Extends;
    hide OneJobMoved;
    hide Stage;
    hide PayloadOf;
    hide Admits;
    hide JobChunks;
    NothingTouched(system, c.source);
    if Admits(profile, c.source, c.chunks) && !Exhausted(fuel) {
      var staged := Stage(system.db, c);
      ApplyKeepsValid(system.db, Staging(c));
      StagingExtends(system.db, c);
      if staged.1.Ok? {
        StagedJob(system.db, c);
        var loaded := System(staged.0, system.index);
        IngestedChunks(system.db, c);
        var chunks := if KeyOf(c) in system.db.byKey then JobChunks(staged.0, staged.1.value) else c.chunks;
        ProcessEffect(loaded, staged.1.value, chunks, Spend(fuel));
        var r := Process(loaded, staged.1.value, chunks, Spend(fuel));
        ExtendsTransitive(system.db, staged.0, r.system.db);
        TouchesAfterStaging(system, staged.0, r.system, c);
        SkippedWasThere(system.db, c);
      }
    }
  }

  lemma UniqueIdsOf(c: Command)
    requires WellFormed(c)
    ensures UniqueChunkIds(c.chunks)
  {
  }

  lemma StagingExtends(db: Db, c: Command)
    requires Valid(db)
    ensures Extends(db, Stage(db, c).0)
    ensures Stage(db, c).1.Err? ==> Stage(db, c).0 == db
  {
    StageExtends(db, c);
  }

  lemma SkippedWasThere(db: Db, c: Command)
    requires Valid(db) && WellFormed(c) && Stage(db, c).1.Ok?
    ensures var staged := Stage(db, c);
            staged.1.value in staged.0.jobs && (staged.0.jobs[staged.1.value].status.Indexed? ==> staged.0 == db)
  {
    StagedJob(db, c);
  }

  lemma NothingTouched(system: System, s: SourceKey)
    ensures OnlyTouches(system, system, s) && Extends(system.db, system.db)
  {
  }

  lemma StagedJob(db: Db, c: Command)
    requires Valid(db) && WellFormed(c) && Stage(db, c).1.Ok?
    ensures var staged := Stage(db, c);
            var id := staged.1.value;
            && id in staged.0.jobs
            && staged.0.jobs[id].version == VersionOf(c) && staged.0.jobs[id].hash == PayloadOf(c)
            && staged.0.jobs[id].key == KeyOf(c) && KeyOf(c) in staged.0.byKey && staged.0.byKey[KeyOf(c)] == id
            && VersionOf(c) in staged.0.versions && Elements(staged.0.versions[VersionOf(c)].listing) == Elements(c.chunks)
            && staged.0.versions[VersionOf(c)].hash == PayloadOf(c)
            && staged.0.sources == db.sources
            && (forall v | v != VersionOf(c) :: v in staged.0.versions ==> v in db.versions)
            && (id in db.jobs ==> staged.0 == db)
            && (id !in db.jobs ==> staged.0.jobs[id].status.Staged?)
            && (c.relationships == [] ==> staged.0.relationships == db.relationships)
  {
    hide SourcesValid;
    hide RelationshipsValid;
    hide VersionsValid;
    hide TargetsKnown;
    hide ChunkIdsUnique;
    hide WellFormed;
    ApplyKeepsValid(db, Staging(c));
    if KeyOf(c) in db.byKey {
      assert Stage(db, c).0 == db;
    } else {
      assert db.nextJob !in db.jobs;
      assert c.relationships == [] ==> RowsOf(c) == {};
    }
    JobVersionExists(Stage(db, c).0, Stage(db, c).1.value);
  }

  /** The domain as it is now does not take these chunks. */
  ghost predicate Refuses(profile: Security.DomainProfile, s: SourceKey, chunks: seq<Chunk>) {
    || s.tenant != profile.tenant || s.domain != profile.name
    || exists x :: x in chunks && (!(x.acl <= profile.allowedAcl) || !Security.IngestibleSecurity(profile.model, x.security))
  }

  /** A retry checks the stored chunks against the domain as it is now, and touches nothing where it
      refuses them; without failures it ends what it takes, unless that is indexed already. */
  lemma RetryExactly(profile: Security.DomainProfile, system: System, id: nat, fuel: Fuel)
    requires Valid(system.db)
    ensures var r := Reprocess(profile, system, id, fuel);
            && (id !in system.db.jobs ==> r.ending.Rejected? && r.system == system)
            && (id in system.db.jobs ==>
                  var v := system.db.jobs[id].version;
                  && v in system.db.versions
                  && (Refuses(profile, v.source, system.db.versions[v].listing) ==> r.ending.Rejected? && r.system == system)
                  && (!Refuses(profile, v.source, system.db.versions[v].listing) && fuel.Unlimited? ==>
                        if system.db.jobs[id].status.Indexed? then r.ending.Skipped? && r.system == system else r.ending.Done?))
  {
    hide Process;
    hide Valid;
    hide Admits;
    hide Refuses;
    if id in system.db.jobs {
      JobVersionExists(system.db, id);
      var s, chunks := system.db.jobs[id].version.source, JobChunks(system.db, id);
      RefusesMeans(profile, s, chunks);
      if fuel.Unlimited? { RetryEnds(system, id, chunks); }
    }
  }

  lemma RefusesMeans(profile: Security.DomainProfile, s: SourceKey, chunks: seq<Chunk>)
    ensures Refuses(profile, s, chunks) <==> !Admits(profile, s, chunks)
  {
    hide Security.IngestibleSecurity;
  }

  lemma RetryEnds(system: System, id: nat, chunks: seq<Chunk>)
    requires Valid(system.db) && id in system.db.jobs && chunks == JobChunks(system.db, id)
    ensures var r := Process(system, id, chunks, Unlimited);
            if system.db.jobs[id].status.Indexed? then r.ending.Skipped? && r.system == system else r.ending.Done?
  {
    hide Valid;
    hide Process;
    hide OneJobMoved;
    hide OnlyTouches;
    hide Extends;
    hide Agrees;
    JobVersionExists(system.db, id);
    ProcessEffect(system, id, chunks, Unlimited);
  }

  // ------------------------------------------------------------------------ sequential runs

  /** Deleting a source: first from the index, then from the tables. */
  function Remove(system: System, s: SourceKey, fuel: Fuel): Ingested {
    if Exhausted(fuel) then Ingested(system, fuel, Rejected)
    else
      var cleared := WithoutSource(system.index, s);
      if Exhausted(Spend(fuel)) then Ingested(System(system.db, cleared), Spend(fuel), Broken)
      else Ingested(System(DeleteSource(system.db, s), cleared), Spend(Spend(fuel)), Done)
  }

  /** The index goes first: where deletion stops in between, the index has nothing of the source and
      the tables still have all of it; at the end both have nothing. */
  lemma RemovalOrder(system: System, s: SourceKey, fuel: Fuel)
    ensures var r := Remove(system, s, fuel);
            && SameElsewhere(system.index, r.system.index, s)
            && (r.ending.Rejected? ==> r.system == system)
            && (r.ending.Broken? ==> HoldsNothing(r.system.index, s) && r.system.db == system.db)
            && (r.ending.Done? ==> HoldsNothing(r.system.index, s) && s !in r.system.db.sources)
            && !r.ending.Skipped?
  {
  }

  datatype Operation =
    | IngestNew(profile: Security.DomainProfile, command: Command, fuel: Fuel)
    | Retry(profile: Security.DomainProfile, job: nat, fuel: Fuel)
    | PublishRelations(command: Command)
    | RemoveSource(source: SourceKey, fuel: Fuel)

  /** An ingested command went through its constructor. */
  ghost predicate Possible(o: Operation) { o.IngestNew? ==> WellFormed(o.command) }

  function Perform(system: System, o: Operation): Ingested {
    match o
    case IngestNew(profile, c, fuel) => Ingest(profile, system, c, fuel)
    case Retry(profile, id, fuel) => Reprocess(profile, system, id, fuel)
    case PublishRelations(c) =>
      Ingested(system.(db := ReplaceRelationships(system.db, c).0), Unlimited, Rejected)
    case RemoveSource(s, fuel) => Remove(system, s, fuel)
  }

  function SourceOf(system: System, o: Operation): Option<SourceKey> {
    match o
    case IngestNew(_, c, _) => Some(c.source)
    case Retry(_, id, _) => if id in system.db.jobs then Some(system.db.jobs[id].version.source) else None
    case PublishRelations(_) => None
    case RemoveSource(s, _) => Some(s)
  }

  /** Sources whose last operation that changed the index did not succeed. */
  function DirtyAfter(system: System, dirty: set<SourceKey>, o: Operation): set<SourceKey> {
    var ending := Perform(system, o).ending;
    var s := SourceOf(system, o);
    if s.None? then dirty
    else if ending.Done? then dirty - {s.value}
    else if ending.Broken? then dirty + {s.value}
    else dirty
  }

  lemma PerformEffect(system: System, o: Operation)
    requires Valid(system.db) && Possible(o)
    ensures var r := Perform(system, o);
            var s := SourceOf(system, o);
            && Valid(r.system.db)
            && (s.None? ==> SameStores(system, r.system))
            && (s.Some? ==>
                  && OnlyTouches(system, r.system, s.value)
                  && (r.ending.Done? ==> Agrees(r.system, s.value))
                  && (!r.ending.Done? && !r.ending.Broken? ==> SameAt(system, r.system, s.value)))
  {
    hide Valid;
    hide Process;
    hide OneJobMoved;
    hide OnlyTouches;
    hide Ingest;
    hide Agrees;
    hide Extends;
    hide Admits;
    match o
    case IngestNew(profile, c, fuel) =>
      IngestEffect(profile, system, c, fuel);
      SameAtByParts(system, Perform(system, o).system, c.source);
    case Retry(profile, id, fuel) =>
      if id in system.db.jobs {
        NothingTouched(system, system.db.jobs[id].version.source);
        JobVersionExists(system.db, id);
        ProcessEffect(system, id, JobChunks(system.db, id), if Exhausted(fuel) then fuel else Spend(fuel));
        SameAtByParts(system, Perform(system, o).system, system.db.jobs[id].version.source);
      }
    case PublishRelations(c) => ApplyKeepsValid(system.db, Publish(c)); PublishKeepsStores(system, c);
    case RemoveSource(s, fuel) => RemoveEffect(system, s, fuel);
  }

  /** Pointers, versions and the index are the same. */
  ghost predicate SameStores(before: System, after: System) {
    after.db.sources == before.db.sources && after.db.versions == before.db.versions && after.index == before.index
  }

  /** For one source, pointer and index objects are the same and its versions are still there. */
  ghost predicate SameAt(before: System, after: System, s: SourceKey) {
    && after.index == before.index && after.db.sources == before.db.sources
    && forall v | v in before.db.versions :: v in after.db.versions && after.db.versions[v] == before.db.versions[v]
  }

  lemma SameAtByParts(before: System, after: System, s: SourceKey)
    requires OnlyTouches(before, after, s)
    ensures after.index == before.index && after.db.sources == before.db.sources ==> SameAt(before, after, s)
  {
  }

  lemma PublishKeepsStores(system: System, c: Command)
    ensures SameStores(system, Perform(system, PublishRelations(c)).system)
  {
    hide Publishable;
  }

  lemma RemoveEffect(system: System, s: SourceKey, fuel: Fuel)
    requires Valid(system.db)
    ensures var r := Remove(system, s, fuel);
            && Valid(r.system.db) && OnlyTouches(system, r.system, s)
            && (r.ending.Done? ==> Agrees(r.system, s))
            && (!r.ending.Done? && !r.ending.Broken? ==> SameAt(system, r.system, s))
            && (fuel.Unlimited? ==> r.ending.Done? && r.fuel == fuel)
  {
    hide Valid;
    ApplyKeepsValid(system.db, Delete(s));
  }

  /** Agreement is kept by every operation on every source that is not left dirty. */
  lemma PerformKeepsAgreement(system: System, dirty: set<SourceKey>, o: Operation, s: SourceKey)
    requires Valid(system.db) && Possible(o)
    requires s !in dirty ==> Agrees(system, s)
    ensures s !in DirtyAfter(system, dirty, o) ==> Agrees(Perform(system, o).system, s)
  {
    hide Valid;
    hide Perform;
    hide Possible;
    hide OnlyTouches;
    hide HoldsExactly;
    PerformEffect(system, o);
    var after := Perform(system, o).system;
    var touched := SourceOf(system, o);
    if touched.Some? && touched.value != s {
      OthersKeepAgreeing(system, after, touched.value, s);
    } else if s !in dirty && s in system.db.sources {
      PointerVersionExists(system.db, s);
    }
  }

  lemma PointerVersionExists(db: Db, s: SourceKey)
    requires Valid(db) && s in db.sources
    ensures VersionKey(s, db.sources[s].version) in db.versions
  {
    hide RelationshipsValid;
    JobVersionExists(db, db.sources[s].job);
  }

  function RunAll(system: System, operations: seq<Operation>): (System, set<SourceKey>) {
    if operations == [] then (system, {})
    else
      var before := RunAll(system, operations[..|operations| - 1]);
      var last := operations[|operations| - 1];
      (Perform(before.0, last).system, DirtyAfter(before.0, before.1, last))
  }

  ghost predicate AllPossible(operations: seq<Operation>) { forall o | o in operations :: Possible(o) }

  const START: System := System(EMPTY, map[])

  /** Dual-store agreement: after any sequence of ingestions, retries, publications and deletions
      with failures anywhere, every source whose last index-changing operation succeeded (or
      that none touched) has exactly the chunks of its current version in the index. */
  lemma {:induction false} StoresAgree(operations: seq<Operation>, s: SourceKey)
    requires AllPossible(operations)
    ensures Valid(RunAll(START, operations).0.db)
    ensures s !in RunAll(START, operations).1 ==> Agrees(RunAll(START, operations).0, s)
    decreases |operations|
  {
    hide Perform;
    hide Possible;
    hide JobsValid;
    hide VersionsValid;
    hide SourcesValid;
    hide RelationshipsValid;
    EmptyIsValid();
    if operations != [] {
      var before := operations[..|operations| - 1];
      StoresAgree(before, s);
      var at := RunAll(START, before);
      PerformEffect(at.0, operations[|before|]);
      PerformKeepsAgreement(at.0, at.1, operations[|before|], s);
    }
  }

  // -------------------------------------------------------------------- consistency counters

  predicate InScope(s: SourceKey, tenant: string, domain: string) { s.tenant == tenant && s.domain == domain }

  /** Rows of the chunk table that belong to a current version. */
  function ActiveChunks(db: Db, tenant: string, domain: string): set<ObjectKey> {
    set s, x | s in db.sources && InScope(s, tenant, domain)
               && VersionKey(s, db.sources[s].version) in db.versions
               && x in db.versions[VersionKey(s, db.sources[s].version)].listing :: ObjectKey(s, x.id)
  }

  function IndexedChunks(index: Index, tenant: string, domain: string): set<ObjectKey> {
    set k | k in index && InScope(k.source, tenant, domain)
  }

  /** Agreement on every source makes the two counters of the consistency report equal. */
  lemma AgreementMakesCountsEqual(system: System, tenant: string, domain: string)
    requires forall s | InScope(s, tenant, domain) :: Agrees(system, s)
    ensures |ActiveChunks(system.db, tenant, domain)| == |IndexedChunks(system.index, tenant, domain)|
  {
    var active, indexed := ActiveChunks(system.db, tenant, domain), IndexedChunks(system.index, tenant, domain);
    forall k ensures k in active <==> k in indexed {
      if k in active {
        var s, x :| s in system.db.sources && InScope(s, tenant, domain)
                    && VersionKey(s, system.db.sources[s].version) in system.db.versions
                    && x in system.db.versions[VersionKey(s, system.db.sources[s].version)].listing && k == ObjectKey(s, x.id);
        assert Agrees(system, s);
      }
      if k in indexed {
        assert Agrees(system, k.source);
        var v := VersionKey(k.source, system.db.sources[k.source].version);
        assert HasChunk(Elements(system.db.versions[v].listing), k.chunk);
        var x :| x in system.db.versions[v].listing && x.id == k.chunk;
        assert k == ObjectKey(k.source, x.id);
      }
    }
    assert active == indexed;
  }
}
