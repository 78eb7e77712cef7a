/** After the deleting phase has begun: what a stopped attempt leaves, and exactly when a retry can
    still complete.
 */
module ImportDeletions {
  import opened IngestionStore
  import opened DualStore
  import opened DatasetImport
  import opened ImportResumption
  import opened ImportConvergence
  import opened CompletedImports
  import opened Records

  // ------------------------------------------------------------- stopped while deleting

  function DropSources(db: Db, gone: set<SourceKey>): Db {
    db.(sources := db.sources - gone, relationships := (set row | row in db.relationships && !TouchesAny(row, gone)))
  }

  function DropEntries(index: Index, gone: set<SourceKey>): Index {
    map k | k in index && k.source !in gone :: index[k]
  }

  lemma DropNothing(system: System)
    ensures DropSources(system.db, {}) == system.db && DropEntries(system.index, {}) == system.index
  {
    assert forall row :: !TouchesAny(row, {});
    assert DropSources(system.db, {}).relationships == system.db.relationships;
  }

  lemma DropOneMore(db: Db, index: Index, s: SourceKey, rest: set<SourceKey>)
    ensures DropSources(DeleteSource(db, s), rest) == DropSources(db, {s} + rest)
    ensures DropEntries(WithoutSource(index, s), rest) == DropEntries(index, {s} + rest)
  {
    assert forall row :: TouchesAny(row, {s} + rest) <==> Touches(row, s) || TouchesAny(row, rest);
    assert DropSources(DeleteSource(db, s), rest).relationships == DropSources(db, {s} + rest).relationships;
    assert DropSources(DeleteSource(db, s), rest).sources == DropSources(db, {s} + rest).sources;
  }

  lemma FirstOfPart<T>(s: seq<T>, from: nat, to: nat)
    requires from < to <= |s|
    ensures Elements(s[from..to]) == {s[from]} + Elements(s[from + 1..to])
  {
    assert s[from..to] == [s[from]] + s[from + 1..to];
  }

  lemma NoPart<T>(s: seq<T>, from: nat)
    requires from <= |s|
    ensures Elements(s[from..from]) == {}
  {
  }

  lemma UpdateKeepsSystem(w: World, status: RunStatus, n: Counters, fuel: Fuel)
    ensures Update(w, status, n, fuel).world.system == w.system
  {
  }

  /** A stopped deleting loop has dropped a first part of the deletions from the tables, and the
      same or one more from the index. */
  lemma {:induction false} DeletingStops(w: World, ds: Dataset, from: nat, n: Counters, fuel: Fuel) returns (j: nat, k: nat)
    requires from <= |ds.deletions|
    ensures from <= j <= k <= |ds.deletions| && k <= j + 1
    ensures DeleteAll(w, ds, from, n, fuel).world.system ==
            System(DropSources(w.system.db, Elements(ds.deletions[from..j])),
                   DropEntries(w.system.index, Elements(ds.deletions[from..k])))
    decreases |ds.deletions| - from
  {
    hide DropSources;
    hide DropEntries;
    hide DeleteSource;
    hide WithoutSource;
    hide Elements;
    hide Update;
    DropNothing(w.system);
    NoPart(ds.deletions, from);
    j, k := from, from;
    if from < |ds.deletions| {
      var s := ds.deletions[from];
      var r := Remove(w.system, s, fuel);
      if r.ending.Broken? {
        k := from + 1;
        DropOneMore(w.system.db, w.system.index, s, {});
        DropNothing(System(DeleteSource(w.system.db, s), WithoutSource(w.system.index, s)));
        FirstOfPart(ds.deletions, from, k);
        NoPart(ds.deletions, k);
      } else if r.ending.Done? {
        var m := n.(deleted := n.deleted + 1);
        var u := Update(w.(system := r.system), InDeleting, m, r.fuel);
        j, k := from + 1, from + 1;
        UpdateKeepsSystem(w.(system := r.system), InDeleting, m, r.fuel);
        if u.ok { j, k := DeletingStops(u.world, ds, from + 1, u.counters, u.fuel); }
        else { DropNothing(r.system); NoPart(ds.deletions, from + 1); }
        DropOneMore(w.system.db, w.system.index, s, Elements(ds.deletions[from + 1..j]));
        DropOneMore(w.system.db, w.system.index, s, Elements(ds.deletions[from + 1..k]));
        FirstOfPart(ds.deletions, from, j);
        FirstOfPart(ds.deletions, from, k);
      }
    }
  }

  lemma DropKeepsValid(db: Db, gone: set<SourceKey>)
    requires Valid(db)
    ensures Valid(DropSources(db, gone))
  {
    hide HasChunk;
    hide UniqueChunkIds;
    hide TouchesAny;
    var next := DropSources(db, gone);
    assert JobsValid(next) by { hide VersionsValid; hide SourcesValid; hide RelationshipsValid; }
    assert VersionsValid(next) by { hide JobsValid; hide SourcesValid; hide RelationshipsValid; }
    assert SourcesValid(next) by { hide VersionsValid; hide RelationshipsValid; hide JobsValid; }
    assert RelationshipsValid(next) by { hide JobsValid; hide VersionsValid; hide SourcesValid; }
  }

  // ------------------------------------------------------------------------ idle repetition

  ghost predicate AllDone(db: Db, ds: Dataset) { forall c | c in ds.commands :: JobDone(db, Bare(c)) }

  /** Staging again when every job is indexed does nothing, wherever it stops. */
  lemma {:induction false} StagingIsIdle(w: World, ds: Dataset, from: nat, n: Counters, fuel: Fuel)
    requires Valid(w.system.db) && Distinct(ds.commands) && w.run.Some? && AllDone(w.system.db, ds)
    ensures var p := StageAll(w, ds, from, n, fuel);
            && p.world.system == w.system && SameRow(w, p.world)
            && (fuel.Unlimited? && AdmitsFrom(ds, from) ==> p.ok && p.fuel == Unlimited)
    decreases |ds.commands| - from
  {
    hide Valid;
    hide Ingest;
    hide JobDone;
    hide JobOpen;
    hide Absent;
    hide WellFormed;
    hide Admits;
    hide AdmitsFrom;
    if from < |ds.commands| {
      assert ds.commands[from] in ds.commands;
      AdmitsStep(ds, from);
      IngestMovesOneJob(ds.profile, w.system, Bare(ds.commands[from]), fuel);
      var u := Update(w, InStaging, n.(indexed := n.indexed + 1), Ingest(ds.profile, w.system, Bare(ds.commands[from]), fuel).fuel);
      StagingIsIdle(u.world, ds, from + 1, u.counters, u.fuel);
    }
  }

  lemma RepublishingIsIdle(db: Db, c: Command)
    requires RowsAre(db.relationships, VersionOf(c), RowsOf(c))
    ensures ReplaceRelationships(db, c).0 == db
  {
    if Publishable(db, c) {
      assert forall row | row in RowsOf(c) :: row.owner == VersionOf(c);
      assert ReplaceRelationships(db, c).0.relationships == db.relationships;
    }
  }

  /** Publishing again what is published does nothing, wherever it stops; without failures it stops
      at the first command that can no longer be published. */
  lemma {:induction false} RelatingIsIdle(w: World, ds: Dataset, from: nat, n: Counters, fuel: Fuel)
    requires w.run.Some?
    requires forall j :: from <= j < |ds.relations| && Relates(ds.profile, w.system.db, ds.relations[j]) ==>
               RowsAre(w.system.db.relationships, VersionOf(ds.relations[j]), RowsOf(ds.relations[j]))
    ensures var p := RelateAll(w, ds, from, n, fuel);
            && p.world.system == w.system && SameRow(w, p.world)
            && (fuel.Unlimited? ==> (p.ok <==> RelatesFrom(ds, w.system.db, from)) && (p.ok ==> p.fuel == Unlimited))
    decreases |ds.relations| - from
  {
    hide Publishable;
    hide RowsAre;
    hide Relatable;
    hide RelatesFrom;
    if from < |ds.relations| {
      RelatesStep(ds, w.system.db, from);
      if Relates(ds.profile, w.system.db, ds.relations[from]) && !Exhausted(fuel) {
        RepublishingIsIdle(w.system.db, ds.relations[from]);
        var m := n.(published := n.published + |ds.relations[from].relationships|);
        var u := Update(w, InRelating, m, Spend(fuel));
        RelatingIsIdle(u.world, ds, from + 1, u.counters, u.fuel);
      }
    } else {
      NoneLeftToRelate(ds, w.system.db, from);
    }
  }

  /** Every source that a relationship command is for, or that one of its relationships ends at,
      still has a pointer. */
  ghost predicate StillPointed(db: Db, ds: Dataset) {
    forall r | r in ds.relations :: EndsPointed(db, r)
  }

  ghost predicate EndsPointed(db: Db, r: Command) {
    && r.source in db.sources
    && forall x | x in r.relationships :: SourceKey(r.source.tenant, r.source.domain, x.to.source) in db.sources
  }

  lemma PublishableAfterDropping(db: Db, gone: set<SourceKey>, r: Command)
    requires Publishable(db, r)
    ensures Publishable(DropSources(db, gone), r) <==> EndsPointed(DropSources(db, gone), r)
  {
    hide HasChunk;
    hide TouchesAny;
    var left := DropSources(db, gone);
    forall x | x in r.relationships
      ensures TargetExists(left, r.source, x.to) <==> SourceKey(r.source.tenant, r.source.domain, x.to.source) in left.sources
      ensures RowAllowed(left, Row(VersionOf(r), x))
    {
      assert TargetExists(db, r.source, x.to) && RowAllowed(db, Row(VersionOf(r), x));
    }
  }

  lemma RowsAfterDropping(db: Db, gone: set<SourceKey>, r: Command)
    requires WellFormed(r) && RowsAre(db.relationships, VersionOf(r), RowsOf(r)) && Publishable(DropSources(db, gone), r)
    ensures RowsAre(DropSources(db, gone).relationships, VersionOf(r), RowsOf(r))
  {
    hide HasChunk;
    var left := DropSources(db, gone);
    forall row: Row | row.owner == VersionOf(r) ensures row in left.relationships <==> row in RowsOf(r) {
      if row in RowsOf(r) {
        var x :| x in r.relationships && row == Row(VersionOf(r), x);
        assert TargetExists(left, r.source, x.to);
        forall s | Touches(row, s)
          ensures s == r.source || s == SourceKey(r.source.tenant, r.source.domain, x.to.source)
        {
        }
      }
    }
  }

  /** Purging everything makes up for what was dropped before. */
  lemma PurgeAbsorbs(system: System, a: set<SourceKey>, b: set<SourceKey>, all: set<SourceKey>)
    requires a <= all && b <= all
    ensures Purged(SeenOf(System(DropSources(system.db, a), DropEntries(system.index, b))), all) == Purged(SeenOf(system), all)
  {
    var x := Purged(SeenOf(System(DropSources(system.db, a), DropEntries(system.index, b))), all);
    var y := Purged(SeenOf(system), all);
    assert forall row :: TouchesAny(row, a) ==> TouchesAny(row, all);
    assert x.current == y.current;
    assert x.relationships == y.relationships;
    assert x.index == y.index;
  }

  /** A world stopped while deleting: published stores of which some deletions have been dropped. */
  ghost predicate HalfDeleted(start: System, full: System, w: World, ds: Dataset, a: set<SourceKey>, b: set<SourceKey>) {
    && Ready(start, full, ds) && AdmitsFrom(ds, 0)
    && Published(full.db.relationships, ds.relations, |ds.relations|) && RelatesFrom(ds, full.db, 0)
    && w.system == System(DropSources(full.db, a), DropEntries(full.index, b))
    && a <= Elements(ds.deletions) && b <= Elements(ds.deletions)
    && w.run.Some? && w.run.value.request == ds.request && !w.run.value.status.Completed?
  }

  /** What still can be published is published. */
  lemma DroppedIsPublished(start: System, full: System, w: World, ds: Dataset, a: set<SourceKey>, b: set<SourceKey>)
    requires WellFormedDataset(ds) && HalfDeleted(start, full, w, ds, a, b)
    ensures forall j :: 0 <= j < |ds.relations| ==>
              && (Relates(ds.profile, w.system.db, ds.relations[j]) ==>
                    RowsAre(w.system.db.relationships, VersionOf(ds.relations[j]), RowsOf(ds.relations[j])))
              && (Relates(ds.profile, w.system.db, ds.relations[j]) <==> EndsPointed(w.system.db, ds.relations[j]))
  {
    hide Publishable;
    hide RowsAre;
    hide WellFormed;
    hide EndsPointed;
    hide Ready;
    hide DropEntries;
    hide DropSources;
    hide AdmitsFrom;
    DatasetParts(ds);
    forall j | 0 <= j < |ds.relations|
      ensures Relates(ds.profile, w.system.db, ds.relations[j]) ==>
                RowsAre(w.system.db.relationships, VersionOf(ds.relations[j]), RowsOf(ds.relations[j]))
      ensures Relates(ds.profile, w.system.db, ds.relations[j]) <==> EndsPointed(w.system.db, ds.relations[j])
    {
      assert Relates(ds.profile, full.db, ds.relations[j]);
      PublishableAfterDropping(full.db, a, ds.relations[j]);
      if Publishable(w.system.db, ds.relations[j]) { RowsAfterDropping(full.db, a, ds.relations[j]); }
    }
  }

  /** What a retry without failures does from a world stopped while deleting. */
  lemma RetryFromDropped(start: System, full: System, w: World, ds: Dataset, a: set<SourceKey>, b: set<SourceKey>)
    requires WellFormedDataset(ds) && HalfDeleted(start, full, w, ds, a, b)
    ensures var retry := Attempt(w, ds, Unlimited);
            && (retry.ok <==> StillPointed(w.system.db, ds))
            && (retry.ok ==> SeenOf(retry.world.system) == Purged(SeenOf(full), Elements(ds.deletions)))
    ensures Valid(w.system.db) && AllDone(w.system.db, ds)
  {
    hide StageAll;
    hide RelateAll;
    hide DeleteAll;
    hide SeenOf;
    hide Purged;
    hide Publishable;
    hide RowsAre;
    hide WellFormed;
    hide EndsPointed;
    hide StagedUpTo;
    hide Mixed;
    hide Valid;
    hide DropEntries;
    hide DropSources;
    hide AllDone;
    hide AdmitsFrom;
    DroppedIsPublished(start, full, w, ds, a, b);
    DatasetParts(ds);
    DroppedIsDone(start, full, ds, a);
    StagingIsIdle(w, ds, 0, ZERO, Unlimited);
    var staged := StagePart(w, ds, Unlimited);
    RelatingIsIdle(staged.world, ds, 0, staged.counters, Unlimited);
    var related := RelatePart(staged, ds);
    if related.ok {
      DeletingPurges(related.world, ds, 0, related.counters);
      assert ds.deletions[0..] == ds.deletions;
      PurgeAbsorbs(full, a, b, Elements(ds.deletions));
    }
  }

  lemma DropTwice(system: System, a: set<SourceKey>, b: set<SourceKey>, more: set<SourceKey>, gone: set<SourceKey>)
    ensures DropSources(DropSources(system.db, a), more) == DropSources(system.db, a + more)
    ensures DropEntries(DropEntries(system.index, b), gone) == DropEntries(system.index, b + gone)
  {
    assert forall row :: TouchesAny(row, a + more) <==> TouchesAny(row, a) || TouchesAny(row, more);
    assert DropSources(DropSources(system.db, a), more).relationships == DropSources(system.db, a + more).relationships;
    assert DropSources(DropSources(system.db, a), more).sources == DropSources(system.db, a + more).sources;
  }

  /** A retry that fails, wherever it does, leaves such a world again; it may have dropped more. */
  lemma FailedRetryDrops(start: System, full: System, w: World, ds: Dataset, a: set<SourceKey>, b: set<SourceKey>, fuel: Fuel)
    returns (more: set<SourceKey>, gone: set<SourceKey>)
    requires WellFormedDataset(ds) && HalfDeleted(start, full, w, ds, a, b) && !Attempt(w, ds, fuel).ok
    ensures HalfDeleted(start, full, Attempt(w, ds, fuel).world, ds, more, gone)
  {
    hide StageAll;
    hide RelateAll;
    hide DeleteAll;
    hide Publishable;
    hide RowsAre;
    hide WellFormed;
    hide EndsPointed;
    hide Ready;
    hide Published;
    hide RelatesFrom;
    hide Valid;
    hide DropEntries;
    hide DropSources;
    hide AllDone;
    hide AdmitsFrom;
    hide Relates;
    more, gone := a, b;
    if !Exhausted(fuel) {
      DroppedIsPublished(start, full, w, ds, a, b);
      DatasetParts(ds);
      DroppedIsDone(start, full, ds, a);
      StagingIsIdle(w, ds, 0, ZERO, Spend(fuel));
      var staged := StagePart(w, ds, Spend(fuel));
      if staged.ok {
        RelatingIsIdle(staged.world, ds, 0, staged.counters, staged.fuel);
        var related := RelatePart(staged, ds);
        if related.ok {
          var j, k := DeletingStops(related.world, ds, 0, related.counters, related.fuel);
          DeletingCounts(related.world, ds, 0, related.counters, related.fuel);
          DropTwice(full, a, b, Elements(ds.deletions[0..j]), Elements(ds.deletions[0..k]));
          more, gone := a + Elements(ds.deletions[0..j]), b + Elements(ds.deletions[0..k]);
        }
      }
    }
  }

  ghost predicate AllFail(w: World, ds: Dataset, faults: seq<Fuel>) {
    forall i :: 0 <= i < |faults| ==> !Attempt(AfterAttempts(w, ds, faults[..i]), ds, faults[i]).ok
  }

  lemma {:induction false} FailedRetriesDrop(start: System, full: System, w: World, ds: Dataset, a: set<SourceKey>, b: set<SourceKey>,
                                             faults: seq<Fuel>)
    returns (more: set<SourceKey>, gone: set<SourceKey>)
    requires WellFormedDataset(ds) && HalfDeleted(start, full, w, ds, a, b) && AllFail(w, ds, faults)
    ensures HalfDeleted(start, full, AfterAttempts(w, ds, faults), ds, more, gone)
  {
    hide HalfDeleted;
    hide WellFormedDataset;
    hide Attempt;
    more, gone := a, b;
    if faults != [] {
      var before := faults[..|faults| - 1];
      forall i | 0 <= i < |before| ensures !Attempt(AfterAttempts(w, ds, before[..i]), ds, before[i]).ok {
        assert before[..i] == faults[..i];
      }
      more, gone := FailedRetriesDrop(start, full, w, ds, a, b, before);
      more, gone := FailedRetryDrops(start, full, AfterAttempts(w, ds, before), ds, more, gone, faults[|before|]);
    }
  }

  lemma DroppedIsDone(start: System, full: System, ds: Dataset, a: set<SourceKey>)
    requires Ready(start, full, ds)
    ensures Valid(DropSources(full.db, a)) && AllDone(DropSources(full.db, a), ds)
  {
    hide Valid;
    hide PointsTo;
    hide IndexHolds;
    hide VersionsKept;
    hide Mixed;
    DropKeepsValid(full.db, a);
    forall c | c in ds.commands ensures JobDone(DropSources(full.db, a), Bare(c)) {
      var i :| 0 <= i < |ds.commands| && ds.commands[i] == c;
      assert JobDone(full.db, Bare(ds.commands[i]));
    }
  }

  /** After a failure in the deleting phase and any further failures, a retry without failures
      completes exactly when every source that has a relationship command, or that one ends at, still
      has its pointer; and if it completes, it ends like an attempt that never failed. */
  lemma RetryAfterDeletions(start: System, w: World, ds: Dataset, n: nat, fuel: Fuel, faults: seq<Fuel>)
    requires WellFormedDataset(ds) && Resumable(start, w, ds, n)
    requires !Attempt(w, ds, fuel).ok && Attempt(w, ds, fuel).phase.DeletingPhase?
    requires AllFail(Attempt(w, ds, fuel).world, ds, faults)
    ensures var left := AfterAttempts(Attempt(w, ds, fuel).world, ds, faults);
            var retry, clean := Attempt(left, ds, Unlimited), Attempt(w, ds, Unlimited);
            && clean.ok
            && (retry.ok <==> StillPointed(left.system.db, ds))
            && (retry.ok ==> SeenOf(retry.world.system) == SeenOf(clean.world.system))
  {
    hide Resumable;
    hide WellFormedDataset;
    hide StagedUpTo;
    hide Mixed;
    hide Attempt;
    hide SeenOf;
    hide Purged;
    hide Published;
    hide Relates;
    hide AdmitsFrom;
    hide StillPointed;
    hide DropSources;
    hide DropEntries;
    hide AllDone;
    hide OnlyRowsDiffer;
    hide AllFail;
    hide AfterAttempts;
    var full, a, b := StoppedWhileDeleting(start, w, ds, n, fuel);
    var more, gone := FailedRetriesDrop(start, full, Attempt(w, ds, fuel).world, ds, a, b, faults);
    RetryFromDropped(start, full, AfterAttempts(Attempt(w, ds, fuel).world, ds, faults), ds, more, gone);
    var staged, published := CleanAttempt(start, w, ds, n);
    SameCurrent(start, staged, full, ds.commands);
    SameVersions(start, staged, full, ds.commands);
    ReadyIsValid(start, staged, ds);
    ReadyIsValid(start, full, ds);
    forall j | 0 <= j < |ds.relations| ensures Relates(ds.profile, staged.db, ds.relations[j]) {
      assert Relates(ds.profile, full.db, ds.relations[j]);
      RelatesIsSeen(ds.profile, staged, full, ds.relations[j]);
    }
    OneEndOfPublication(start, full, published, ds);
  }

  /** The published stores behind an attempt stopped while deleting, and what it had dropped. */
  lemma StoppedWhileDeleting(start: System, w: World, ds: Dataset, n: nat, fuel: Fuel)
    returns (full: System, a: set<SourceKey>, b: set<SourceKey>)
    requires WellFormedDataset(ds) && Resumable(start, w, ds, n)
    requires !Attempt(w, ds, fuel).ok && Attempt(w, ds, fuel).phase.DeletingPhase?
    ensures Ready(start, full, ds) && AdmitsFrom(ds, 0)
    ensures Published(full.db.relationships, ds.relations, |ds.relations|) && RelatesFrom(ds, full.db, 0)
    ensures var left := Attempt(w, ds, fuel).world;
            && left.system == System(DropSources(full.db, a), DropEntries(full.index, b))
            && left.run.Some? && left.run.value.request == ds.request && !left.run.value.status.Completed?
    ensures a <= Elements(ds.deletions) && b <= Elements(ds.deletions)
  {
    hide StagedUpTo;
    hide Mixed;
    hide WellFormedDataset;
    hide StageAll;
    hide RelateAll;
    hide DeleteAll;
    hide Published;
    hide RelatesFrom;
    hide AdmitsFrom;
    hide DropSources;
    hide DropEntries;
    var m := StagedIsReady(start, w, ds, n, Spend(fuel));
    var staged := StagePart(Begin(w, ds), ds, Spend(fuel));
    NothingPublishedYet(staged.world.system.db.relationships, ds.relations);
    RelatingResumes(start, staged.world, ds, 0, staged.counters, staged.fuel);
    var related := RelatePart(staged, ds);
    full := related.world.system;
    RelatesIgnoresRows(ds, staged.world.system, full, 0);
    var j, k := DeletingStops(related.world, ds, 0, related.counters, related.fuel);
    DeletingCounts(related.world, ds, 0, related.counters, related.fuel);
    a, b := Elements(ds.deletions[0..j]), Elements(ds.deletions[0..k]);
  }

  // ---------------------------------------------------------------- no retry ever completes

  /** Everything is indexed, and some pointer that relating needs is gone. */
  ghost predicate Stuck(w: World, ds: Dataset) {
    && Valid(w.system.db) && AllDone(w.system.db, ds) && !StillPointed(w.system.db, ds)
    && w.run.Some? && !w.run.value.status.Completed?
  }

  /** Relating changes rows only, and completes only if every pointer is there. */
  lemma {:induction false} RelatingNeedsPointers(w: World, ds: Dataset, from: nat, n: Counters, fuel: Fuel)
    requires Valid(w.system.db) && w.run.Some?
    ensures var p := RelateAll(w, ds, from, n, fuel);
            && Valid(p.world.system.db) && OnlyRowsDiffer(w.system, p.world.system) && SameRow(w, p.world)
            && (p.ok ==> forall j :: from <= j < |ds.relations| ==> EndsPointed(w.system.db, ds.relations[j]))
    decreases |ds.relations| - from
  {
    hide Valid;
    hide Relatable;
    if from < |ds.relations| && Relatable(ds.profile, ds.relations[from]) && !Exhausted(fuel) {
      var c := ds.relations[from];
      var r := ReplaceRelationships(w.system.db, c);
      ReplaceKeepsValid(w.system.db, c);
      if Publishable(w.system.db, c) {
        assert forall x | x in c.relationships :: TargetExists(w.system.db, c.source, x.to);
        assert EndsPointed(w.system.db, c);
        hide Publishable;
        hide TargetExists;
        var after := System(r.0, w.system.index);
        var u := Update(World(after, w.run), InRelating, n.(published := n.published + |c.relationships|), Spend(fuel));
        if u.ok {
          RelatingNeedsPointers(u.world, ds, from + 1, u.counters, u.fuel);
          forall j | from < j < |ds.relations| && EndsPointed(after.db, ds.relations[j])
            ensures EndsPointed(w.system.db, ds.relations[j])
          {
          }
        }
      }
    }
  }

  lemma StuckStays(w: World, ds: Dataset, fuel: Fuel)
    requires WellFormedDataset(ds) && Stuck(w, ds)
    ensures !Attempt(w, ds, fuel).ok && Stuck(Attempt(w, ds, fuel).world, ds)
  {
    hide StageAll;
    hide RelateAll;
    hide DeleteAll;
    hide Valid;
    hide WellFormedDataset;
    hide JobDone;
    hide AdmitsFrom;
    if !Exhausted(fuel) && SameImport(w.run.value.request, ds.request) {
      DatasetParts(ds);
      StagingIsIdle(w, ds, 0, ZERO, Spend(fuel));
      var staged := StagePart(w, ds, Spend(fuel));
      if staged.ok {
        RelatingNeedsPointers(staged.world, ds, 0, staged.counters, staged.fuel);
        var related := RelatePart(staged, ds);
        RowsKeepJobs(staged.world.system, related.world.system, ds);
      }
    }
  }

  lemma RowsKeepJobs(a: System, b: System, ds: Dataset)
    requires OnlyRowsDiffer(a, b)
    ensures AllDone(a.db, ds) <==> AllDone(b.db, ds)
    ensures StillPointed(a.db, ds) <==> StillPointed(b.db, ds)
  {
    forall c ensures JobDone(a.db, c) <==> JobDone(b.db, c) {}
    forall r ensures EndsPointed(a.db, r) <==> EndsPointed(b.db, r) {}
  }

  lemma {:induction false} StuckForever(w: World, ds: Dataset, faults: seq<Fuel>)
    requires WellFormedDataset(ds) && Stuck(w, ds)
    ensures Stuck(AfterAttempts(w, ds, faults), ds)
  {
    hide Stuck;
    hide Attempt;
    hide WellFormedDataset;
    if faults != [] {
      StuckForever(w, ds, faults[..|faults| - 1]);
      StuckStays(AfterAttempts(w, ds, faults[..|faults| - 1]), ds, faults[|faults| - 1]);
    }
  }

  /** When the first retry cannot complete, no later one can, whatever fails in between. */
  lemma NoRetryCompletes(start: System, w: World, ds: Dataset, n: nat, fuel: Fuel, faults: seq<Fuel>, last: Fuel)
    requires WellFormedDataset(ds) && Resumable(start, w, ds, n)
    requires !Attempt(w, ds, fuel).ok && Attempt(w, ds, fuel).phase.DeletingPhase?
    requires !StillPointed(Attempt(w, ds, fuel).world.system.db, ds)
    ensures !Attempt(AfterAttempts(Attempt(w, ds, fuel).world, ds, faults), ds, last).ok
  {
    hide Resumable;
    hide WellFormedDataset;
    hide Attempt;
    hide Ready;
    hide Published;
    hide RelatesFrom;
    hide AdmitsFrom;
    hide StillPointed;
    hide DropSources;
    hide DropEntries;
    hide AllDone;
    hide Valid;
    var full, a, b := StoppedWhileDeleting(start, w, ds, n, fuel);
    var left := Attempt(w, ds, fuel).world;
    RetryFromDropped(start, full, left, ds, a, b);
    StuckForever(left, ds, faults);
    StuckStays(AfterAttempts(left, ds, faults), ds, last);
  }
}
