/** What a transaction on the ingestion tables does, row by row, and exactly when it raises. */
module Transactions {
  import opened Outcomes
  import opened Records
  import opened IngestionStore

  /** The payload says the same as the command: version, metadata, and its chunks and relationships
      in whatever order. */
  predicate SamePayload(h: Payload, c: Command) {
    && h.version.source == c.source && h.version.version == c.version && h.metadata == c.metadata
    && h.chunks == Elements(c.chunks) && h.relationships == Elements(c.relationships)
  }

  lemma PayloadSaysTheSame(h: Payload, c: Command)
    ensures SamePayload(h, c) <==> h == PayloadOf(c)
    ensures forall x :: x in Elements(c.chunks) <==> x in c.chunks
    ensures forall r :: r in Elements(c.relationships) <==> r in c.relationships
  {
  }

  /** The node is a chunk of the current version of its source. */
  ghost predicate IsCurrentChunk(db: Db, owner: SourceKey, n: Node) {
    exists x: Chunk, s, v ::
      && s == SourceKey(owner.tenant, owner.domain, n.source)
      && s in db.sources && v == VersionKey(s, db.sources[s].version) && v in db.versions
      && x in db.versions[v].listing && x.id == n.chunk
  }

  lemma TargetIsCurrentChunk(db: Db, owner: SourceKey, n: Node)
    ensures TargetExists(db, owner, n) <==> IsCurrentChunk(db, owner, n)
  {
    if TargetExists(db, owner, n) {
      var s := SourceKey(owner.tenant, owner.domain, n.source);
      var v := VersionKey(s, db.sources[s].version);
      var x :| x in Elements(db.versions[v].listing) && x.id == n.chunk;
      assert x in db.versions[v].listing;
    }
    if IsCurrentChunk(db, owner, n) {
      var x: Chunk, s, v :| && s == SourceKey(owner.tenant, owner.domain, n.source)
                            && s in db.sources && v == VersionKey(s, db.sources[s].version) && v in db.versions
                            && x in db.versions[v].listing && x.id == n.chunk;
      assert x in Elements(db.versions[v].listing);
    }
  }

  // ---------------------------------------------------------------------------------- staging

  function JobKeyOf(c: Command): JobKey { JobKey(c.source.tenant, c.source.domain, c.key) }

  /** Staging conflicts: the key belongs to a job of another payload, or the version is stored with
      another payload, or a relationship of a new version ends outside its source in no current chunk. */
  ghost predicate StageConflicts(db: Db, c: Command) {
    var key, v := JobKeyOf(c), VersionKey(c.source, c.version);
    if key in db.byKey then
      !(db.byKey[key] in db.jobs && SamePayload(db.jobs[db.byKey[key]].hash, c))
    else if v in db.versions then !SamePayload(db.versions[v].hash, c)
    else exists r :: r in c.relationships && r.to.source != c.source.source && !IsCurrentChunk(db, c.source, r.to)
  }

  /** What staging leaves. A known key changes nothing. Otherwise there is one new job, staged and
      never attempted; and a version that is new is stored with the chunks in their order, and with
      exactly one row for each relationship of the command. */
  ghost predicate IsStaged(before: Db, c: Command, after: Db, id: nat) {
    var key, v := JobKeyOf(c), VersionKey(c.source, c.version);
    if key in before.byKey then after == before && id == before.byKey[key]
    else
      && id == before.nextJob && after.nextJob == id + 1
      && after.sources == before.sources
      && after.byKey.Keys == before.byKey.Keys + {key} && after.byKey[key] == id
      && (forall k | k in before.byKey :: after.byKey[k] == before.byKey[k])
      && after.jobs.Keys == before.jobs.Keys + {id}
      && (forall j | j in before.jobs && j != id :: after.jobs[j] == before.jobs[j])
      && after.jobs[id].version == v && after.jobs[id].key == key && SamePayload(after.jobs[id].hash, c)
      && after.jobs[id].status == Staged && after.jobs[id].attempts == 0
      && after.versions.Keys == before.versions.Keys + {v}
      && (forall x | x in before.versions :: after.versions[x] == before.versions[x])
      && (v !in before.versions ==> after.versions[v].listing == c.chunks && SamePayload(after.versions[v].hash, c))
      && forall row :: row in after.relationships <==>
                         || row in before.relationships
                         || (v !in before.versions && row.owner == v && row.relationship in c.relationships)
  }

  lemma StagingExactly(db: Db, c: Command)
    ensures var (after, r) := Stage(db, c);
            if StageConflicts(db, c) then r == Err(Conflict) && after == db
            else r.Ok? && IsStaged(db, c, after, r.value)
  {
    var v := VersionOf(c);
    if KeyOf(c) in db.byKey {
      if db.byKey[KeyOf(c)] in db.jobs { PayloadSaysTheSame(db.jobs[db.byKey[KeyOf(c)]].hash, c); }
    } else if v in db.versions {
      PayloadSaysTheSame(db.versions[v].hash, c);
      PayloadSaysTheSame(PayloadOf(c), c);
      hide PayloadOf;
    } else {
      forall n ensures TargetExists(db, c.source, n) <==> IsCurrentChunk(db, c.source, n) { TargetIsCurrentChunk(db, c.source, n); }
      PayloadSaysTheSame(PayloadOf(c), c);
      hide PayloadOf;
      hide TargetExists;
      hide IsCurrentChunk;
    }
  }

  // ------------------------------------------------------------------------------ publication

  /** The relationship can be published: its end is a current chunk, and it starts at a chunk of the
      version that owns it. */
  ghost predicate MayPublish(db: Db, c: Command, r: Relationship) {
    && IsCurrentChunk(db, c.source, r.to)
    && r.from.source == c.source.source
    && VersionKey(c.source, c.version) in db.versions
    && exists x :: x in db.versions[VersionKey(c.source, c.version)].listing && x.id == r.from.chunk
  }

  /** Publication raises for a version that is not current, and for the first relationship that
      cannot be published: a conflict if its end is missing, an error of the database otherwise. */
  ghost predicate PublicationFails(db: Db, c: Command, error: IngestError) {
    || (error == Conflict && !(c.source in db.sources && db.sources[c.source].version == c.version))
    || (&& c.source in db.sources && db.sources[c.source].version == c.version
        && exists i ::
             && 0 <= i < |c.relationships| && !MayPublish(db, c, c.relationships[i])
             && (forall j | 0 <= j < i :: MayPublish(db, c, c.relationships[j]))
             && error == if IsCurrentChunk(db, c.source, c.relationships[i].to) then Unavailable else Conflict)
  }

  lemma MayPublishIsAllowed(db: Db, c: Command, r: Relationship)
    ensures MayPublish(db, c, r) <==> TargetExists(db, c.source, r.to) && RowAllowed(db, Row(VersionOf(c), r))
    ensures TargetExists(db, c.source, r.to) <==> IsCurrentChunk(db, c.source, r.to)
  {
    TargetIsCurrentChunk(db, c.source, r.to);
    hide TargetExists;
    hide IsCurrentChunk;
    var v := VersionOf(c);
    if MayPublish(db, c, r) {
      var x :| x in db.versions[v].listing && x.id == r.from.chunk;
      assert x in Elements(db.versions[v].listing);
    }
  }

  /** The first relationship from `from` on that cannot be published. */
  lemma {:induction false} FirstBad(db: Db, c: Command, from: nat) returns (i: nat)
    requires from <= |c.relationships| && !(forall k | from <= k < |c.relationships| :: MayPublish(db, c, c.relationships[k]))
    ensures from <= i < |c.relationships| && !MayPublish(db, c, c.relationships[i])
    ensures forall j | from <= j < i :: MayPublish(db, c, c.relationships[j])
    decreases |c.relationships| - from
  {
    hide MayPublish;
    if MayPublish(db, c, c.relationships[from]) { i := FirstBad(db, c, from + 1); } else { i := from; }
  }

  lemma {:induction false} FirstError(db: Db, c: Command, from: nat, i: nat)
    requires from <= i < |c.relationships| && !MayPublish(db, c, c.relationships[i])
    requires forall j | from <= j < i :: MayPublish(db, c, c.relationships[j])
    ensures PublishError(db, c, from) == if IsCurrentChunk(db, c.source, c.relationships[i].to) then Unavailable else Conflict
    decreases i - from
  {
    MayPublishIsAllowed(db, c, c.relationships[from]);
    hide TargetExists;
    hide RowAllowed;
    hide MayPublish;
    hide IsCurrentChunk;
    if from < i { FirstError(db, c, from + 1, i); }
  }

  lemma PublicationExactly(db: Db, c: Command)
    ensures var (after, r) := ReplaceRelationships(db, c);
            var v := VersionKey(c.source, c.version);
            if r.Err? then after == db && PublicationFails(db, c, r.error)
            else
              && c.source in db.sources && db.sources[c.source].version == c.version
              && (forall x | x in c.relationships :: MayPublish(db, c, x))
              && after == db.(relationships := after.relationships)
              && forall row :: row in after.relationships <==>
                                 if row.owner == v then row.relationship in c.relationships else row in db.relationships
  {
    hide TargetExists;
    hide RowAllowed;
    hide MayPublish;
    hide IsCurrentChunk;
    forall x ensures MayPublish(db, c, x) <==> TargetExists(db, c.source, x.to) && RowAllowed(db, Row(VersionOf(c), x)) {
      MayPublishIsAllowed(db, c, x);
    }
    if c.source in db.sources && db.sources[c.source].version == c.version && !Publishable(db, c) {
      var x :| x in c.relationships && !MayPublish(db, c, x);
      var k :| 0 <= k < |c.relationships| && c.relationships[k] == x;
      var i := FirstBad(db, c, 0);
      FirstError(db, c, 0, i);
    }
  }

  // -------------------------------------------------------------------------------- deletion

  /** Behind a deletion the source has no pointer and no row of its domain starts or ends in it;
      everything else is as before. */
  lemma DeletionExactly(db: Db, s: SourceKey)
    ensures var after := DeleteSource(db, s);
            && after == db.(sources := after.sources, relationships := after.relationships)
            && (forall x :: x in after.sources <==> x in db.sources && x != s)
            && (forall x | x in after.sources :: after.sources[x] == db.sources[x])
            && forall row :: row in after.relationships <==>
                               && row in db.relationships
                               && !(&& row.owner.source.tenant == s.tenant && row.owner.source.domain == s.domain
                                    && (row.relationship.from.source == s.source || row.relationship.to.source == s.source))
  {
  }

  // ------------------------------------------------------------------------------------- jobs

  /** The whole life of a job: which transaction takes it from which status to which, whatever other
      transactions commit in between. */
  lemma JobsMove(db: Db, e: Event, id: nat)
    requires JobsValid(db) && id in db.jobs
    ensures var after := Apply(db, e);
            && id in after.jobs
            && after.jobs[id].version == db.jobs[id].version && after.jobs[id].hash == db.jobs[id].hash
            && after.jobs[id].status ==
               (match db.jobs[id].status
                case Staged => if e == EnterIndexing(id) then Indexing else Staged
                case Indexing => if e == EnterIndexed(id) then Indexed else if e == EnterFailed(id) then Failed else Indexing
                case Failed => if e == EnterIndexing(id) then Indexing else Failed
                case Indexed => Indexed)
            && (e.EnterIndexed? && e.job == id && db.jobs[id].status == Indexing ==>
                  var s := db.jobs[id].version.source;
                  s in after.sources && after.sources[s] == Pointer(db.jobs[id].version.version, id))
  {
    hide Publishable;
    hide JobsValid;
    hide Stage;
    match e
    case Staging(c) => StagingKeepsJob(db, c, id);
    case _ =>
  }

  lemma StagingKeepsJob(db: Db, c: Command, id: nat)
    requires JobsValid(db) && id in db.jobs
    ensures id in Stage(db, c).0.jobs && Stage(db, c).0.jobs[id] == db.jobs[id]
  {
    hide TargetsKnown;
    hide PayloadOf;
    NextIsFresh(db);
  }
}
