/** `PostgreSQLIngestionRepository`: each method is one transaction on the tables. A method that
    raises leaves the tables as they were.
 */
module IngestionRepository {
  import opened Outcomes
  import opened IngestionStore
  import opened Records
  import opened Transactions

  class Repository {
    var jobs: map<nat, Job>
    var byKey: map<JobKey, nat>
    var versions: map<VersionKey, Version>
    var sources: map<SourceKey, Pointer>
    var relationships: set<Row>
    var nextJob: nat

    ghost function Value(): Db
      reads this
    {
      Db(jobs, byKey, versions, sources, relationships, nextJob)
    }

    constructor ()
      ensures Value() == EMPTY
    {
      jobs, byKey, versions, sources, relationships, nextJob := map[], map[], map[], map[], {}, 0;
    }

    method HasTarget(owner: SourceKey, node: Node) returns (found: bool)
      ensures found == TargetExists(Value(), owner, node)
    {
      var s := SourceKey(owner.tenant, owner.domain, node.source);
      if s !in sources { return false; }
      var v := VersionKey(s, sources[s].version);
      found := v in versions && HasChunk(Elements(versions[v].listing), node.chunk);
    }

    /** The chunks of a job's version, by position. */
    method LoadChunks(id: nat) returns (chunks: seq<Chunk>)
      ensures chunks == JobChunks(Value(), id)
    {
      chunks := [];
      if id in jobs && jobs[id].version in versions {
        var listing := versions[jobs[id].version].listing;
        for i := 0 to |listing|
          invariant chunks == listing[..i]
        {
          chunks := chunks + [listing[i]];
        }
      }
    }

    /** The check and the foreign key that an insert into the relationship table meets. */
    method MayInsert(row: Row) returns (allowed: bool)
      ensures allowed == RowAllowed(Value(), row)
    {
      allowed := row.relationship.from.source == row.owner.source.source && row.owner in versions
                 && HasChunk(Elements(versions[row.owner].listing), row.relationship.from.chunk);
    }

    /** The rows of a new version, unless a relationship leads out of its source to no current chunk. */
    method RowsToInsert(c: Command) returns (r: Result<set<Row>, IngestError>)
      ensures r == if TargetsKnown(Value(), c) then Ok(RowsOf(c)) else Err(Conflict)
    {
      hide TargetExists;
      var rows: set<Row> := {};
      for i := 0 to |c.relationships|
        invariant rows == set x | x in c.relationships[..i] :: Row(VersionOf(c), x)
        invariant forall x | x in c.relationships[..i] && x.to.source != c.source.source :: TargetExists(Value(), c.source, x.to)
      {
        var relationship := c.relationships[i];
        assert c.relationships[..i + 1] == c.relationships[..i] + [relationship];
        if relationship.to.source != c.source.source {
          var found := HasTarget(c.source, relationship.to);
          if !found {
            assert relationship in c.relationships && !TargetsKnown(Value(), c);
            return Err(Conflict);
          }
        }
        rows := rows + {Row(VersionOf(c), relationship)};
      }
      assert c.relationships[..|c.relationships|] == c.relationships;
      r := Ok(rows);
    }

    /** Inserts chunk by chunk and relationship by relationship, and commits at the end. */
    method StageCommand(c: Command) returns (r: Result<nat, IngestError>)
      modifies this
      ensures (Value(), r) == Stage(old(Value()), c)
      ensures if StageConflicts(old(Value()), c) then r == Err(Conflict) && Value() == old(Value())
              else r.Ok? && IsStaged(old(Value()), c, Value(), r.value)
    {
      hide StageConflicts;
      hide IsStaged;
      hide TargetsKnown;
      hide RowsOf;
      StagingExactly(Value(), c);
      if KeyOf(c) in byKey {
        var id := byKey[KeyOf(c)];
        if id !in jobs || jobs[id].hash != PayloadOf(c) { return Err(Conflict); }
        return Ok(id);
      }
      var known := VersionOf(c) in versions;
      if known && versions[VersionOf(c)].hash != PayloadOf(c) { return Err(Conflict); }
      if !known {
        var listing: seq<Chunk> := [];
        for i := 0 to |c.chunks|
          invariant listing == c.chunks[..i]
        {
          listing := listing + [c.chunks[i]];
        }
        assert listing == c.chunks;
        var rows := RowsToInsert(c);
        if rows.Err? { return Err(Conflict); }
        versions := versions[VersionOf(c) := Version(PayloadOf(c), listing)];
        relationships := relationships + rows.value;
      }
      var id := nextJob;
      jobs := jobs[id := Job(VersionOf(c), KeyOf(c), PayloadOf(c), Staged, 0)];
      byKey := byKey[KeyOf(c) := id];
      nextJob := nextJob + 1;
      r := Ok(id);
    }

    method EnterIndexing(id: nat) returns (r: Result<(), IngestError>)
      modifies this`jobs
      ensures (Value(), r) == MarkIndexing(old(Value()), id)
    {
      if id !in jobs || jobs[id].status !in {Staged, Indexing, Failed} { return Err(InvalidTransition); }
      jobs := jobs[id := jobs[id].(status := Indexing, attempts := jobs[id].attempts + 1)];
      r := Ok(());
    }

    method EnterIndexed(id: nat) returns (r: Result<(), IngestError>)
      modifies this`jobs, this`sources
      ensures (Value(), r) == MarkIndexed(old(Value()), id)
    {
      if id !in jobs || jobs[id].status != Indexing { return Err(InvalidTransition); }
      var job := jobs[id];
      jobs := jobs[id := job.(status := Indexed)];
      sources := sources[job.version.source := Pointer(job.version.version, id)];
      r := Ok(());
    }

    method EnterFailed(id: nat) returns (r: Result<(), IngestError>)
      modifies this`jobs
      ensures (Value(), r) == MarkFailed(old(Value()), id)
    {
      if id !in jobs || jobs[id].status != Indexing { return Err(InvalidTransition); }
      jobs := jobs[id := jobs[id].(status := Failed)];
      r := Ok(());
    }

    method Publish(c: Command) returns (r: Result<(), IngestError>)
      modifies this`relationships
      ensures (Value(), r) == ReplaceRelationships(old(Value()), c)
      ensures r.Err? ==> PublicationFails(old(Value()), c, r.error) && Value() == old(Value())
      ensures r.Ok? ==>
                && (forall x | x in c.relationships :: MayPublish(old(Value()), c, x))
                && forall row :: row in relationships <==>
                                   if row.owner == VersionKey(c.source, c.version) then row.relationship in c.relationships
                                   else row in old(relationships)
    {
      PublicationExactly(Value(), c);
      hide PublicationFails;
      hide MayPublish;
      hide TargetExists;
      hide RowAllowed;
      if c.source !in sources || sources[c.source].version != c.version { return Err(Conflict); }
      var kept := set row | row in relationships && row.owner != VersionOf(c);
      var rows: set<Row> := {};
      for i := 0 to |c.relationships|
        invariant Value() == old(Value())
        invariant rows == set x | x in c.relationships[..i] :: Row(VersionOf(c), x)
        invariant forall x | x in c.relationships[..i] :: TargetExists(Value(), c.source, x.to) && RowAllowed(Value(), Row(VersionOf(c), x))
        invariant PublishError(Value(), c) == PublishError(Value(), c, i)
      {
        var relationship := c.relationships[i];
        assert c.relationships[..i + 1] == c.relationships[..i] + [relationship];
        assert relationship in c.relationships;
        var found := HasTarget(c.source, relationship.to);
        if !found { return Err(Conflict); }
        var allowed := MayInsert(Row(VersionOf(c), relationship));
        if !allowed { return Err(Unavailable); }
        rows := rows + {Row(VersionOf(c), relationship)};
      }
      assert c.relationships[..|c.relationships|] == c.relationships;
      relationships := kept + rows;
      r := Ok(());
    }

    method Remove(s: SourceKey)
      modifies this`relationships, this`sources
      ensures Value() == DeleteSource(old(Value()), s)
    {
      relationships := set row | row in relationships && !Touches(row, s);
      sources := sources - {s};
    }
  }
}
