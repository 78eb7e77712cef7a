/** What a completed import guarantees: it ends as if nothing had failed, its counters tell what the
    dataset holds, and no relationship dangles.
 */
module CompletedImports {
  import opened Outcomes
  import opened IngestionStore
  import opened DualStore
  import opened DatasetImport
  import opened ImportResumption
  import opened ImportConvergence
  import opened Records
  import Security

  // -------------------------------------------------- completing means that nothing failed

  lemma {:induction false} InsertedIsClean(index: Index, s: SourceKey, version: string, chunks: seq<Chunk>, fuel: Fuel)
    ensures var r := InsertChunks(index, s, version, chunks, fuel);
            r.2 ==> InsertChunks(index, s, version, chunks, Unlimited) == (r.0, Unlimited, true)
    decreases |chunks|
  {
    if chunks != [] && !Exhausted(fuel) {
      InsertedIsClean(index[ObjectKey(s, chunks[0].id) := Entry(version, chunks[0])], s, version, chunks[1..], Spend(fuel));
    }
  }

  lemma ProcessedIsClean(system: System, id: nat, chunks: seq<Chunk>, fuel: Fuel)
    ensures var r := Process(system, id, chunks, fuel);
            r.ending.Done? || r.ending.Skipped? ==>
              Process(system, id, chunks, Unlimited) == Ingested(r.system, Unlimited, r.ending)
  {
    hide InsertChunks;
    hide MarkIndexing;
    hide MarkIndexed;
    hide MarkFailed;
    if id in system.db.jobs && !Exhausted(fuel) && !Exhausted(Spend(fuel)) && !Exhausted(Spend(Spend(fuel))) {
      var v := system.db.jobs[id].version;
      InsertedIsClean(WithoutSource(system.index, v.source), v.source, v.version, chunks, Spend(Spend(Spend(fuel))));
    }
  }

  lemma IngestedIsClean(profile: Security.DomainProfile, system: System, c: Command, fuel: Fuel)
    ensures var r := Ingest(profile, system, c, fuel);
            r.ending.Done? || r.ending.Skipped? ==>
              Ingest(profile, system, c, Unlimited) == Ingested(r.system, Unlimited, r.ending)
  {
    hide Process;
    hide Stage;
    hide Admits;
    hide JobChunks;
    if !Exhausted(fuel) {
      var staged := Stage(system.db, c);
      if staged.1.Ok? {
        var chunks := if KeyOf(c) in system.db.byKey then JobChunks(staged.0, staged.1.value) else c.chunks;
        ProcessedIsClean(system.(db := staged.0), staged.1.value, chunks, Spend(fuel));
      }
    }
  }

  lemma {:induction false} StagedIsClean(w: World, ds: Dataset, from: nat, n: Counters, fuel: Fuel)
    ensures var p := StageAll(w, ds, from, n, fuel);
            p.ok ==> StageAll(w, ds, from, n, Unlimited) == p.(fuel := Unlimited)
    decreases |ds.commands| - from
  {
    hide Ingest;
    if from < |ds.commands| {
      var r := Ingest(ds.profile, w.system, Bare(ds.commands[from]), fuel);
      IngestedIsClean(ds.profile, w.system, Bare(ds.commands[from]), fuel);
      var u := Update(w.(system := r.system), InStaging, n.(indexed := n.indexed + 1), r.fuel);
      if u.ok { StagedIsClean(u.world, ds, from + 1, u.counters, u.fuel); }
    }
  }

  lemma {:induction false} RelatedIsClean(w: World, ds: Dataset, from: nat, n: Counters, fuel: Fuel)
    ensures var p := RelateAll(w, ds, from, n, fuel);
            p.ok ==> RelateAll(w, ds, from, n, Unlimited) == p.(fuel := Unlimited)
    decreases |ds.relations| - from
  {
    hide ReplaceRelationships;
    hide Relatable;
    if from < |ds.relations| && !Exhausted(fuel) {
      var r := ReplaceRelationships(w.system.db, ds.relations[from]);
      var m := n.(published := n.published + |ds.relations[from].relationships|);
      var u := Update(w.(system := w.system.(db := r.0)), InRelating, m, Spend(fuel));
      if u.ok { RelatedIsClean(u.world, ds, from + 1, u.counters, u.fuel); }
    }
  }

  lemma {:induction false} DeletedIsClean(w: World, ds: Dataset, from: nat, n: Counters, fuel: Fuel)
    ensures var p := DeleteAll(w, ds, from, n, fuel);
            p.ok ==> DeleteAll(w, ds, from, n, Unlimited) == p.(fuel := Unlimited)
    decreases |ds.deletions| - from
  {
    hide DeleteSource;
    hide WithoutSource;
    if from < |ds.deletions| {
      var r := Remove(w.system, ds.deletions[from], fuel);
      var u := Update(w.(system := r.system), InDeleting, n.(deleted := n.deleted + 1), r.fuel);
      if u.ok { DeletedIsClean(u.world, ds, from + 1, u.counters, u.fuel); }
    }
  }

  /** An attempt that completes ends exactly like one that no failure could have touched. */
  lemma CompletedIsClean(w: World, ds: Dataset, fuel: Fuel)
    requires Attempt(w, ds, fuel).ok
    ensures Attempt(w, ds, Unlimited) == Attempt(w, ds, fuel)
  {
    hide StageAll;
    hide RelateAll;
    hide DeleteAll;
    if !(w.run.Some? && w.run.value.status.Completed?) {
      StagedIsClean(Begin(w, ds), ds, 0, ZERO, Spend(fuel));
      var staged := StagePart(Begin(w, ds), ds, Spend(fuel));
      RelatedIsClean(staged.world, ds, 0, staged.counters, staged.fuel);
      var related := RelatePart(staged, ds);
      DeletedIsClean(related.world, ds, 0, related.counters, related.fuel);
    }
  }

  // ------------------------------------------------------------------------------ counters

  function RelationshipCount(relations: seq<Command>, from: nat): nat
    requires from <= |relations|
    decreases |relations| - from
  {
    if from == |relations| then 0 else |relations[from].relationships| + RelationshipCount(relations, from + 1)
  }

  /** The row is for the same request, and stays open. */
  predicate SameRow(a: World, b: World) {
    (a.run.Some? <==> b.run.Some?) && (a.run.Some? ==> SameRun(a.run.value, b.run.value))
  }

  lemma {:induction false} StagingCounts(w: World, ds: Dataset, from: nat, n: Counters, fuel: Fuel)
    requires from <= |ds.commands|
    ensures var p := StageAll(w, ds, from, n, fuel);
            SameRow(w, p.world) && (p.ok ==> p.counters == n.(indexed := n.indexed + |ds.commands| - from))
    decreases |ds.commands| - from
  {
    hide Ingest;
    if from < |ds.commands| {
      var r := Ingest(ds.profile, w.system, Bare(ds.commands[from]), fuel);
      var u := Update(w.(system := r.system), InStaging, n.(indexed := n.indexed + 1), r.fuel);
      StagingCounts(u.world, ds, from + 1, u.counters, u.fuel);
    }
  }

  lemma {:induction false} RelatingCounts(w: World, ds: Dataset, from: nat, n: Counters, fuel: Fuel)
    requires from <= |ds.relations|
    ensures var p := RelateAll(w, ds, from, n, fuel);
            && SameRow(w, p.world)
            && (p.ok ==> p.counters == n.(published := n.published + RelationshipCount(ds.relations, from)))
    decreases |ds.relations| - from
  {
    hide ReplaceRelationships;
    hide Relatable;
    if from < |ds.relations| && !Exhausted(fuel) {
      var r := ReplaceRelationships(w.system.db, ds.relations[from]);
      var m := n.(published := n.published + |ds.relations[from].relationships|);
      var u := Update(w.(system := w.system.(db := r.0)), InRelating, m, Spend(fuel));
      RelatingCounts(u.world, ds, from + 1, u.counters, u.fuel);
    }
  }

  lemma {:induction false} DeletingCounts(w: World, ds: Dataset, from: nat, n: Counters, fuel: Fuel)
    requires from <= |ds.deletions|
    ensures var p := DeleteAll(w, ds, from, n, fuel);
            && SameRow(w, p.world)
            && (p.ok ==> p.counters == n.(deleted := n.deleted + |ds.deletions| - from))
    decreases |ds.deletions| - from
  {
    hide Remove;
    if from < |ds.deletions| {
      var r := Remove(w.system, ds.deletions[from], fuel);
      var u := Update(w.(system := r.system), InDeleting, n.(deleted := n.deleted + 1), r.fuel);
      DeletingCounts(u.world, ds, from + 1, u.counters, u.fuel);
    }
  }

  /** The counters of a completed attempt: as many as there are commands, relationships and
      deletions, beside the totals recorded when the import began. */
  lemma CompletedCounters(w: World, ds: Dataset, fuel: Fuel)
    requires Attempt(w, ds, fuel).ok && !(w.run.Some? && w.run.value.status.Completed?)
    ensures Attempt(w, ds, fuel).world.run ==
            Some(ImportRun(Begin(w, ds).run.value.request, Completed,
                           Counters(|ds.commands|, RelationshipCount(ds.relations, 0), |ds.deletions|)))
  {
    hide StageAll;
    hide RelateAll;
    hide DeleteAll;
    hide RelationshipCount;
    StagingCounts(Begin(w, ds), ds, 0, ZERO, Spend(fuel));
    var staged := StagePart(Begin(w, ds), ds, Spend(fuel));
    RelatingCounts(staged.world, ds, 0, staged.counters, staged.fuel);
    var related := RelatePart(staged, ds);
    DeletingCounts(related.world, ds, 0, related.counters, related.fuel);
  }

  // ----------------------------------------------------------------------- no dangling ends

  /** Every imported source has a relationship command. */
  ghost predicate EverySourcePublishes(ds: Dataset) {
    forall c | c in ds.commands :: exists j :: 0 <= j < |ds.relations| && ds.relations[j].source == c.source
  }

  ghost predicate Imported(ds: Dataset, s: SourceKey) { exists c :: c in ds.commands && c.source == s }

  predicate ActiveRow(db: Db, row: Row) {
    row.owner.source in db.sources && db.sources[row.owner.source].version == row.owner.version
  }

  /** Both ends of a row are chunks of current versions. */
  ghost predicate EndsExist(db: Db, row: Row) {
    TargetExists(db, row.owner.source, row.relationship.from) && TargetExists(db, row.owner.source, row.relationship.to)
  }

  lemma PublishedRowEndsExist(start: System, system: System, ds: Dataset, row: Row)
    requires WellFormedDataset(ds) && EverySourcePublishes(ds) && Ready(start, system, ds)
    requires Published(system.db.relationships, ds.relations, |ds.relations|) && RelatesFrom(ds, system.db, 0)
    requires row in system.db.relationships && ActiveRow(system.db, row) && Imported(ds, row.owner.source)
    ensures EndsExist(system.db, row)
  {
    hide StagedUpTo;
    hide Mixed;
    hide WellFormedDataset;
    hide HasChunk;
    var c :| c in ds.commands && c.source == row.owner.source;
    var j :| 0 <= j < |ds.relations| && ds.relations[j].source == c.source;
    var r := ds.relations[j];
    assert Relates(ds.profile, system.db, r);
    assert VersionOf(r) == row.owner;
    assert RowsAre(system.db.relationships, VersionOf(r), RowsOf(r));
    assert row in RowsOf(r);
    DatasetParts(ds);
    assert r in ds.relations;
    PublishesStoredVersion(start, system, ds, r);
    RowsAreRooted(r);
  }

  lemma PurgeKeepsEnds(a: System, b: System, gone: set<SourceKey>, row: Row)
    requires Valid(a.db) && Valid(b.db) && SeenOf(b) == Purged(SeenOf(a), gone)
    requires row in b.db.relationships
    requires row in a.db.relationships && ActiveRow(a.db, row) && EndsExist(a.db, row)
             && row.relationship.from.source == row.owner.source.source
    ensures EndsExist(b.db, row)
  {
    hide Valid;
    hide HasChunk;
    PurgedSources(a, b, gone);
    SeenVersions(a, b);
    assert !TouchesAny(row, gone);
    var tenant, domain := row.owner.source.tenant, row.owner.source.domain;
    forall node | node == row.relationship.from || node == row.relationship.to
      ensures SourceKey(tenant, domain, node.source) !in gone
    {
      var s := SourceKey(tenant, domain, node.source);
      assert Touches(row, s);
    }
  }

  lemma PurgedSources(a: System, b: System, gone: set<SourceKey>)
    requires SeenOf(b) == Purged(SeenOf(a), gone)
    ensures forall s :: s in b.db.sources <==> s in a.db.sources && s !in gone
    ensures forall s | s in b.db.sources :: b.db.sources[s].version == a.db.sources[s].version
    ensures SeenOf(b).versions == SeenOf(a).versions
    ensures forall row :: row in b.db.relationships <==> row in a.db.relationships && !TouchesAny(row, gone)
  {
    forall s ensures s in b.db.sources <==> s in a.db.sources && s !in gone {
      assert s in b.db.sources <==> s in SeenOf(b).current;
      assert s in a.db.sources <==> s in SeenOf(a).current;
    }
    forall s | s in b.db.sources ensures b.db.sources[s].version == a.db.sources[s].version {
      assert SeenOf(b).current[s] == SeenOf(a).current[s];
    }
    assert forall row :: row in SeenOf(b).relationships <==> row in Purged(SeenOf(a), gone).relationships;
  }

  lemma CleanImportLeavesNoDangling(start: System, w: World, ds: Dataset, n: nat, row: Row)
    requires WellFormedDataset(ds) && EverySourcePublishes(ds) && Resumable(start, w, ds, n)
    requires Attempt(w, ds, Unlimited).ok
    requires var db := Attempt(w, ds, Unlimited).world.system.db;
             row in db.relationships && ActiveRow(db, row) && Imported(ds, row.owner.source)
    ensures EndsExist(Attempt(w, ds, Unlimited).world.system.db, row)
  {
    hide Resumable;
    hide WellFormedDataset;
    hide EverySourcePublishes;
    hide Imported;
    hide Attempt;
    hide Published;
    hide EndsExist;
    hide StagedUpTo;
    hide Mixed;
    hide RelatesFrom;
    hide AdmitsFrom;
    hide SeenOf;
    hide Purged;
    hide Valid;
    hide OnlyRowsDiffer;
    var staged, published := CleanAttempt(start, w, ds, n);
    var final := Attempt(w, ds, Unlimited).world.system;
    PurgedSources(published, final, Elements(ds.deletions));
    RelatesIgnoresRows(ds, staged, published, 0);
    PublishedRowEndsExist(start, published, ds, row);
    RootedRow(start, published, ds, row);
    ReadyIsValid(start, published, ds);
    AttemptKeepsValid(w, ds, Unlimited, start, n);
    PurgeKeepsEnds(published, final, Elements(ds.deletions), row);
  }

  lemma AttemptKeepsValid(w: World, ds: Dataset, fuel: Fuel, start: System, n: nat)
    requires WellFormedDataset(ds) && Resumable(start, w, ds, n) && Attempt(w, ds, fuel).ok
    ensures Valid(Attempt(w, ds, fuel).world.system.db)
  {
    hide StagedUpTo;
    hide Mixed;
    hide WellFormedDataset;
    hide StageAll;
    hide RelateAll;
    hide DeleteAll;
    hide Valid;
    hide Published;
    hide AdmitsFrom;
    hide RelatesFrom;
    var m := StagedIsReady(start, w, ds, n, Spend(fuel));
    var staged := StagePart(Begin(w, ds), ds, Spend(fuel));
    NothingPublishedYet(staged.world.system.db.relationships, ds.relations);
    RelatingResumes(start, staged.world, ds, 0, staged.counters, staged.fuel);
    var related := RelatePart(staged, ds);
    ReadyIsValid(start, related.world.system, ds);
    DeletingKeepsValid(related.world, ds, 0, related.counters, related.fuel);
  }

  lemma {:induction false} DeletingKeepsValid(w: World, ds: Dataset, from: nat, counters: Counters, fuel: Fuel)
    requires Valid(w.system.db)
    ensures Valid(DeleteAll(w, ds, from, counters, fuel).world.system.db)
    decreases |ds.deletions| - from
  {
    hide Valid;
    if from < |ds.deletions| {
      var r := Remove(w.system, ds.deletions[from], fuel);
      RemoveEffect(w.system, ds.deletions[from], fuel);
      var m := counters.(deleted := counters.deleted + 1);
      var u := Update(w.(system := r.system), InDeleting, m, r.fuel);
      hide Remove;
      if r.ending.Done? && u.ok { DeletingKeepsValid(u.world, ds, from + 1, u.counters, u.fuel); }
    }
  }

  /** After a completed import, whatever failures it got past, no active relationship of an imported
      source has a missing end: cyclic references and deletions included. */
  lemma NoDanglingRelationship(start: System, w: World, ds: Dataset, n: nat, fuel: Fuel, row: Row)
    requires WellFormedDataset(ds) && EverySourcePublishes(ds) && Resumable(start, w, ds, n)
    requires Attempt(w, ds, fuel).ok
    requires var db := Attempt(w, ds, fuel).world.system.db;
             row in db.relationships && ActiveRow(db, row) && Imported(ds, row.owner.source)
    ensures EndsExist(Attempt(w, ds, fuel).world.system.db, row)
  {
    hide Resumable;
    hide WellFormedDataset;
    hide EverySourcePublishes;
    hide Imported;
    hide Attempt;
    hide EndsExist;
    CompletedIsClean(w, ds, fuel);
    CleanImportLeavesNoDangling(start, w, ds, n, row);
  }

  lemma RootedRow(start: System, system: System, ds: Dataset, row: Row)
    requires Ready(start, system, ds) && row in system.db.relationships
    ensures row.relationship.from.source == row.owner.source.source
  {
    hide JobsUpTo;
    hide JobsValid;
    hide VersionsValid;
    hide SourcesValid;
    hide VersionsKept;
    hide PointsTo;
    hide IndexHolds;
    hide Mixed;
  }
}
