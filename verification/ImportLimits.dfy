/** A concrete dataset whose import, once stopped behind its first deletion, can never complete. */
module ImportLimits {
  import opened Outcomes
  import opened IngestionStore
  import opened DualStore
  import opened DatasetImport
  import opened ImportConvergence
  import opened ImportDeletions
  import opened Records
  import Security

  function OneSource(): SourceKey { SourceKey("t", "d", "s") }

  function OneChunk(): Chunk { Chunk("c", "text", {}, Security.Labels(None, {})) }

  function OneCommand(): Command { Command("key", OneSource(), "v1", "", [OneChunk()], []) }

  function OneProfile(): Security.DomainProfile { Security.DomainProfile("d", "t", {}, Security.NoModel) }

  function OneRequest(): ImportRequest { ImportRequest("t", "d", "h", 1, 1, 0, 2) }

  /** One source, published and then deleted, followed by another deletion. */
  function OneDataset(): Dataset {
    Dataset(OneProfile(), OneRequest(), [OneCommand()], [OneCommand()], [OneSource(), SourceKey("t", "d", "other")])
  }

  /** Enough calls to delete the first source from both stores and record it, and no more. */
  const FIFTEEN: Fuel := Left(15, true, true)

  function OneStored(status: Status): Db {
    var c := OneCommand();
    var staged := WithJob(WithVersion(EMPTY, c), c);
    if status.Staged? then staged
    else if status.Indexed? then MarkIndexed(MarkIndexing(staged, 0).0, 0).0
    else MarkIndexing(staged, 0).0
  }

  lemma OneStoredFields()
    ensures var db := OneStored(Indexed);
            && db.sources == map[OneSource() := Pointer("v1", 0)]
            && VersionOf(OneCommand()) in db.versions
    ensures 0 in OneStored(Status.Staged).jobs && OneStored(Status.Staged).jobs[0].status.Staged?
    ensures 0 in OneStored(Status.Staged).jobs && OneStored(Status.Staged).jobs[0].version == VersionOf(OneCommand())
    ensures 0 in OneStored(Indexing).jobs && OneStored(Indexing).jobs[0].status.Indexing?
  {
  }

  function OneIndex(): Index { map[ObjectKey(OneSource(), "c") := Entry("v1", OneChunk())] }

  lemma OneIsIndexed()
    ensures ReplaceSource(map[], OneSource(), "v1", [OneChunk()], Left(12, true, true)) == (OneIndex(), Left(9, true, true), true)
  {
    var key := ObjectKey(OneSource(), "c");
    var empty: Index := map[];
    assert WithoutSource(empty, OneSource()) == empty;
    assert [OneChunk()][1..] == [];
    assert empty[key := Entry("v1", OneChunk())] == OneIndex();
    assert InsertChunks(empty, OneSource(), "v1", [OneChunk()], Left(10, true, true)) ==
           InsertChunks(OneIndex(), OneSource(), "v1", [], Left(9, true, true));
  }

  lemma OneIsStaged()
    ensures Stage(EMPTY, OneCommand()) == (OneStored(Status.Staged), Ok(0))
  {
  }

  lemma OneIsIngested()
    ensures Ingest(OneProfile(), START, OneCommand(), Left(14, true, true)) ==
            Ingested(System(OneStored(Indexed), OneIndex()), Left(8, true, true), Done)
  {
    hide Stage;
    hide ReplaceSource;
    hide WithJob;
    hide WithVersion;
    hide JobChunks;
    assert Admits(OneProfile(), OneSource(), [OneChunk()]);
    OneIsStaged();
    OneStoredFields();
    OneIsIndexed();
  }

  lemma OneIsPublishable()
    ensures Publishable(OneStored(Indexed), OneCommand())
    ensures ReplaceRelationships(OneStored(Indexed), OneCommand()).0 == OneStored(Indexed)
  {
    hide WithJob;
    OneStoredFields();
    var db := OneStored(Indexed);
    assert OneStored(Indexed).relationships == {} by { OneHasNoRows(); }
    assert RowsOf(OneCommand()) == {};
    assert ReplaceRelationships(db, OneCommand()).0.relationships == db.relationships;
  }

  lemma OneHasNoRows()
    ensures OneStored(Indexed).relationships == {}
  {
    assert RowsOf(OneCommand()) == {};
  }

  lemma OneIsRelated(run: ImportRun, n: Counters)
    ensures var r := RelateAll(World(System(OneStored(Indexed), OneIndex()), Some(run)), OneDataset(), 0, n, Left(6, true, true));
            && r.ok && r.fuel == Left(4, true, true)
            && r.world.system == System(OneStored(Indexed), OneIndex()) && r.world.run.Some?
  {
    hide OneStored;
    hide OneIndex;
    hide ReplaceRelationships;
    OneIsPublishable();
    PublishableSucceeds(OneStored(Indexed), OneCommand());
    assert OneChunk() in OneCommand().chunks;
    assert Relatable(OneProfile(), OneCommand());
  }

  lemma PublishableSucceeds(db: Db, c: Command)
    ensures Publishable(db, c) <==> ReplaceRelationships(db, c).1.Ok?
  {
    hide Publishable;
  }

  lemma OneIsStagedAll(run: ImportRun, n: Counters)
    ensures var p := StageAll(World(START, Some(run)), OneDataset(), 0, n, Left(14, true, true));
            && p.ok && p.fuel == Left(7, true, true)
            && p.world.system == System(OneStored(Indexed), OneIndex()) && p.world.run.Some?
  {
    hide Ingest;
    hide OneStored;
    hide OneIndex;
    OneIsIngested();
    assert Bare(OneCommand()) == OneCommand();
  }

  lemma OneIsHalfDeleted(w: World, n: Counters)
    requires w.run.Some?
    ensures var p := DeleteAll(w, OneDataset(), 0, n, Left(3, true, true));
            !p.ok && OneSource() !in p.world.system.db.sources
  {
    var r := Remove(w.system, OneSource(), Left(3, true, true));
    assert r.ending.Done? && r.fuel == Left(1, true, true) && OneSource() !in r.system.db.sources;
  }

  lemma OneIsWellFormed()
    ensures WellFormedDataset(OneDataset()) && Untouched(World(START, None), OneDataset())
  {
    EmptyIsValid();
    var ds := OneDataset();
    assert ds.commands[0] == OneCommand() && VersionOf(ds.commands[0]) == VersionOf(OneCommand());
    assert StagedAs(ds, OneCommand());
  }

  /** Concretely: a dataset that publishes and deletes its one source, which has no relationships at
      all, stopped after that deletion: no later attempt completes, whatever fails in between. */
  lemma NoRetryOfOneCompletes(faults: seq<Fuel>, last: Fuel)
    ensures var w, ds := World(START, None), OneDataset();
            var stopped := Attempt(w, ds, FIFTEEN);
            && WellFormedDataset(ds) && Untouched(w, ds)
            && !stopped.ok && stopped.phase.DeletingPhase?
            && !Attempt(AfterAttempts(stopped.world, ds, faults), ds, last).ok
  {
    hide WellFormedDataset;
    hide Untouched;
    hide StageAll;
    hide RelateAll;
    hide DeleteAll;
    hide OneStored;
    hide OneIndex;
    var w, ds := World(START, None), OneDataset();
    OneIsWellFormed();
    OneIsStagedAll(ImportRun(OneRequest(), InStaging, ZERO), ZERO);
    var staged := StagePart(Begin(w, ds), ds, Left(14, true, true));
    OneIsRelated(staged.world.run.value, staged.counters);
    var related := RelatePart(staged, ds);
    OneIsHalfDeleted(related.world, related.counters);
    var stopped := Attempt(w, ds, FIFTEEN);
    assert OneCommand() in ds.relations && OneSource() !in stopped.world.system.db.sources;
    assert !EndsPointed(stopped.world.system.db, OneCommand());
    UntouchedIsResumable(w, ds);
    NoRetryCompletes(START, w, ds, 0, FIFTEEN, faults, last);
  }
}
