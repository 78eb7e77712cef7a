/** Where imports end: attempts that failed while staging or relating, followed by one without
    failures, end like a single attempt without failures.
 */
module ImportConvergence {
  import opened IngestionStore
  import opened DualStore
  import opened DatasetImport
  import opened ImportResumption
  import opened Records
  import Security

  /** What both stores show: current versions, stored payloads, relationships, index content. */
  datatype Seen = Seen(
    current: map<SourceKey, string>, versions: map<VersionKey, Payload>, relationships: set<Row>, index: Index)

  function SeenOf(system: System): Seen {
    Seen(map s | s in system.db.sources :: system.db.sources[s].version,
         map v | v in system.db.versions :: system.db.versions[v].hash,
         system.db.relationships, system.index)
  }

  // ---------------------------------------------------------------- one end of publication

  lemma SameCurrent(start: System, a: System, b: System, commands: seq<Command>)
    requires StagedUpTo(start, a, commands, |commands|) && StagedUpTo(start, b, commands, |commands|)
    ensures SeenOf(a).current == SeenOf(b).current
  {
    hide Valid;
    hide JobsUpTo;
    hide IndexHolds;
    hide VersionsKept;
    var x, y := SeenOf(a).current, SeenOf(b).current;
    forall s ensures (s in x <==> s in y) && (s in x ==> x[s] == y[s]) {
      assert PointsTo(start.db, a.db, commands, |commands|, s) && PointsTo(start.db, b.db, commands, |commands|, s);
    }
  }

  lemma SameVersions(start: System, a: System, b: System, commands: seq<Command>)
    requires StagedUpTo(start, a, commands, |commands|) && StagedUpTo(start, b, commands, |commands|)
    ensures SeenOf(a).versions == SeenOf(b).versions
  {
    hide Valid;
    hide PointsTo;
    hide IndexHolds;
    var x, y := SeenOf(a).versions, SeenOf(b).versions;
    forall v ensures (v in x <==> v in y) && (v in x ==> x[v] == y[v]) {
      if IsCommandVersion(commands, v) {
        var i :| 0 <= i < |commands| && VersionOf(commands[i]) == v;
        DoneVersionIsStored(a.db, Bare(commands[i]));
        DoneVersionIsStored(b.db, Bare(commands[i]));
      }
    }
  }

  lemma SameHeldEntry(a: Index, b: Index, s: SourceKey, version: string, chunks: seq<Chunk>)
    requires UniqueChunkIds(chunks)
    requires HoldsExactly(a, s, version, Elements(chunks)) && HoldsExactly(b, s, version, Elements(chunks))
    ensures SameEntries(a, b, s)
  {
    var c := Command("", s, version, "", chunks, []);
    ChunkIdsIdentify(c);
  }

  lemma SameIndex(start: System, a: System, b: System, commands: seq<Command>)
    requires Distinct(commands)
    requires StagedUpTo(start, a, commands, |commands|) && StagedUpTo(start, b, commands, |commands|)
    ensures a.index == b.index
  {
    hide Valid;
    hide PointsTo;
    hide JobsUpTo;
    hide VersionsKept;
    hide HoldsExactly;
    forall s ensures SameEntries(a.index, b.index, s) {
      assert IndexHolds(start.index, a.index, commands, |commands|, s) && IndexHolds(start.index, b.index, commands,
            |commands|, s);
      var last := LastBefore(commands, |commands|, s);
      if last.Some? {
        assert WellFormed(Bare(commands[last.value]));
        SameHeldEntry(a.index, b.index, s, commands[last.value].version, commands[last.value].chunks);
      }
    }
    forall k ensures (k in a.index <==> k in b.index) && (k in a.index ==> a.index[k] == b.index[k]) {
      assert SameEntries(a.index, b.index, k.source);
    }
  }

  lemma SameRows(start: set<Row>, a: set<Row>, b: set<Row>, relations: seq<Command>)
    requires Mixed(start, a, relations) && Mixed(start, b, relations)
    requires Published(a, relations, |relations|) && Published(b, relations, |relations|)
    ensures a == b
  {
    forall row ensures row in a <==> row in b {
      if Owns(relations, row.owner) {
        var j :| 0 <= j < |relations| && VersionOf(relations[j]) == row.owner;
        assert RowsAre(a, VersionOf(relations[j]), RowsOf(relations[j]));
        assert RowsAre(b, VersionOf(relations[j]), RowsOf(relations[j]));
      }
    }
  }

  lemma OneEndOfPublication(start: System, a: System, b: System, ds: Dataset)
    requires WellFormedDataset(ds) && Ready(start, a, ds) && Ready(start, b, ds)
    requires Published(a.db.relationships, ds.relations, |ds.relations|)
    requires Published(b.db.relationships, ds.relations, |ds.relations|)
    ensures SeenOf(a) == SeenOf(b)
  {
    hide StagedUpTo;
    hide WellFormed;
    hide Mixed;
    hide Published;
    DatasetParts(ds);
    SameCurrent(start, a, b, ds.commands);
    SameVersions(start, a, b, ds.commands);
    SameIndex(start, a, b, ds.commands);
    SameRows(start.db.relationships, a.db.relationships, b.db.relationships, ds.relations);
  }

  lemma RelatesIsSeen(profile: Security.DomainProfile, a: System, b: System, c: Command)
    requires Valid(a.db) && Valid(b.db)
    requires SeenOf(a).current == SeenOf(b).current && SeenOf(a).versions == SeenOf(b).versions
    ensures Relates(profile, a.db, c) <==> Relates(profile, b.db, c)
  {
    hide Relatable;
    hide Valid;
    hide HasChunk;
    SeenSources(a, b);
    SeenVersions(a, b);
    forall r | r in c.relationships
      ensures TargetExists(a.db, c.source, r.to) <==> TargetExists(b.db, c.source, r.to)
      ensures RowAllowed(a.db, Row(VersionOf(c), r)) <==> RowAllowed(b.db, Row(VersionOf(c), r))
    {
    }
  }

  /** The stored payloads determine the stored chunks. */
  lemma SeenVersions(a: System, b: System)
    requires Valid(a.db) && Valid(b.db) && SeenOf(a).versions == SeenOf(b).versions
    ensures forall v :: v in a.db.versions <==> v in b.db.versions
    ensures forall v | v in a.db.versions :: Elements(a.db.versions[v].listing) == Elements(b.db.versions[v].listing)
  {
    hide JobsValid;
    hide SourcesValid;
    hide RelationshipsValid;
    hide Elements;
    forall v ensures v in a.db.versions <==> v in b.db.versions {
      assert v in a.db.versions <==> v in SeenOf(a).versions;
      assert v in b.db.versions <==> v in SeenOf(b).versions;
    }
    forall v | v in a.db.versions ensures a.db.versions[v].hash == b.db.versions[v].hash {
      assert SeenOf(a).versions[v] == SeenOf(b).versions[v];
    }
  }

  lemma SeenSources(a: System, b: System)
    requires SeenOf(a).current == SeenOf(b).current
    ensures forall s :: s in a.db.sources <==> s in b.db.sources
    ensures forall s | s in a.db.sources :: a.db.sources[s].version == b.db.sources[s].version
  {
    forall s ensures s in a.db.sources <==> s in b.db.sources {
      assert s in a.db.sources <==> s in SeenOf(a).current;
      assert s in b.db.sources <==> s in SeenOf(b).current;
    }
    forall s | s in a.db.sources ensures a.db.sources[s].version == b.db.sources[s].version {
      assert SeenOf(a).current[s] == SeenOf(b).current[s];
    }
  }

  // ----------------------------------------------------------------------------- deletions

  predicate TouchesAny(row: Row, gone: set<SourceKey>) { exists s :: s in gone && Touches(row, s) }

  /** The stores without some sources. */
  function Purged(seen: Seen, gone: set<SourceKey>): Seen {
    Seen(map s | s in seen.current && s !in gone :: seen.current[s],
         seen.versions,
         set row | row in seen.relationships && !TouchesAny(row, gone),
         map k | k in seen.index && k.source !in gone :: seen.index[k])
  }

  lemma PurgedTwice(seen: Seen, a: set<SourceKey>, b: set<SourceKey>)
    ensures Purged(Purged(seen, a), b) == Purged(seen, a + b)
  {
    var x, y := Purged(Purged(seen, a), b), Purged(seen, a + b);
    assert forall row :: TouchesAny(row, a + b) <==> TouchesAny(row, a) || TouchesAny(row, b);
    assert x.current == y.current;
    assert x.relationships == y.relationships;
    assert x.index == y.index;
  }

  lemma RemoveIsPurge(system: System, s: SourceKey)
    ensures SeenOf(System(DeleteSource(system.db, s), WithoutSource(system.index, s))) == Purged(SeenOf(system), {s})
  {
    var x, y := SeenOf(System(DeleteSource(system.db, s), WithoutSource(system.index, s))), Purged(SeenOf(system), {s});
    assert forall row :: TouchesAny(row, {s}) <==> Touches(row, s);
    assert x.current == y.current;
    assert x.relationships == y.relationships;
    assert x.index == y.index;
  }

  /** Without failures the deleting loop purges the remaining sources and always completes. */
  lemma {:induction false} DeletingPurges(w: World, ds: Dataset, from: nat, n: Counters)
    requires from <= |ds.deletions| && w.run.Some?
    ensures var p := DeleteAll(w, ds, from, n, Unlimited);
            && p.ok && p.fuel == Unlimited && p.world.run.Some?
            && SeenOf(p.world.system) == Purged(SeenOf(w.system), Elements(ds.deletions[from..]))
    decreases |ds.deletions| - from
  {
    hide SeenOf;
    if from == |ds.deletions| {
      assert Elements(ds.deletions[from..]) == {};
      PurgeNothing(SeenOf(w.system));
    } else {
      hide Purged;
      var s := ds.deletions[from];
      RemoveIsPurge(w.system, s);
      var after := System(DeleteSource(w.system.db, s), WithoutSource(w.system.index, s));
      var u := Update(w.(system := after), InDeleting, n.(deleted := n.deleted + 1), Unlimited);
      DeletingPurges(u.world, ds, from + 1, u.counters);
      PurgedTwice(SeenOf(w.system), {s}, Elements(ds.deletions[from + 1..]));
      assert ds.deletions[from..] == [s] + ds.deletions[from + 1..];
      assert Elements(ds.deletions[from..]) == {s} + Elements(ds.deletions[from + 1..]);
    }
  }

  lemma PurgeNothing(seen: Seen)
    ensures Purged(seen, {}) == seen
  {
    assert forall row :: !TouchesAny(row, {});
    assert Purged(seen, {}).current == seen.current;
    assert Purged(seen, {}).relationships == seen.relationships;
    assert Purged(seen, {}).index == seen.index;
  }

  // ------------------------------------------------------------------------------ attempts

  /** A world from which an import can be resumed. */
  ghost predicate Resumable(start: System, w: World, ds: Dataset, n: nat) {
    && StagedUpTo(start, w.system, ds.commands, n)
    && Mixed(start.db.relationships, w.system.db.relationships, ds.relations)
    && (w.run.Some? ==> w.run.value.request == ds.request && !w.run.value.status.Completed?)
  }

  lemma StagedIsReady(start: System, w: World, ds: Dataset, n: nat, fuel: Fuel) returns (m: nat)
    requires WellFormedDataset(ds) && Resumable(start, w, ds, n)
    ensures var p := StageAll(Begin(w, ds), ds, 0, ZERO, fuel);
            && n <= m && StagedUpTo(start, p.world.system, ds.commands, m)
            && Mixed(start.db.relationships, p.world.system.db.relationships, ds.relations)
            && p.world.run.Some? && p.world.run.value.request == ds.request && !p.world.run.value.status.Completed?
            && (p.ok ==> Ready(start, p.world.system, ds) && AdmitsFrom(ds, 0))
            && (fuel.Unlimited? && AdmitsFrom(ds, 0) ==> p.ok && p.fuel == fuel)
  {
    hide StagedUpTo;
    hide Mixed;
    hide WellFormed;
    hide AdmitsFrom;
    DatasetParts(ds);
    m := StagingResumes(start, Begin(w, ds), ds, 0, n, ZERO, fuel);
  }

  /** An attempt that fails while staging or relating leaves a resumable world behind. */
  lemma EarlyFailureIsResumable(start: System, w: World, ds: Dataset, n: nat, fuel: Fuel) returns (m: nat)
    requires WellFormedDataset(ds) && Resumable(start, w, ds, n)
    requires !Attempt(w, ds, fuel).ok && (Attempt(w, ds, fuel).phase.StagingPhase? || Attempt(w, ds, fuel).phase.RelatingPhase?)
    ensures Resumable(start, Attempt(w, ds, fuel).world, ds, m)
  {
    hide StagedUpTo;
    hide Mixed;
    hide WellFormedDataset;
    hide StageAll;
    hide RelateAll;
    hide DeleteAll;
    hide AdmitsFrom;
    hide RelatesFrom;
    m := n;
    if !Exhausted(fuel) {
      m := StagedIsReady(start, w, ds, n, Spend(fuel));
      var staged := StagePart(Begin(w, ds), ds, Spend(fuel));
      if staged.ok {
        m := |ds.commands|;
        NothingPublishedYet(staged.world.system.db.relationships, ds.relations);
        RelatingResumes(start, staged.world, ds, 0, staged.counters, staged.fuel);
      }
    }
  }

  function AfterAttempts(w: World, ds: Dataset, faults: seq<Fuel>): World {
    if faults == [] then w
    else Attempt(AfterAttempts(w, ds, faults[..|faults| - 1]), ds, faults[|faults| - 1]).world
  }

  ghost predicate AllFailEarly(w: World, ds: Dataset, faults: seq<Fuel>) {
    forall i :: 0 <= i < |faults| ==>
      var a := Attempt(AfterAttempts(w, ds, faults[..i]), ds, faults[i]);
      !a.ok && (a.phase.StagingPhase? || a.phase.RelatingPhase?)
  }

  lemma {:induction false} FailedAttemptsAreResumable(start: System, w: World, ds: Dataset, n: nat,
        faults: seq<Fuel>) returns (m: nat)
    requires WellFormedDataset(ds) && Resumable(start, w, ds, n) && AllFailEarly(w, ds, faults)
    ensures Resumable(start, AfterAttempts(w, ds, faults), ds, m)
    decreases |faults|
  {
    hide Resumable;
    hide WellFormedDataset;
    hide Attempt;
    m := n;
    if faults != [] {
      var before := faults[..|faults| - 1];
      forall i | 0 <= i < |before|
        ensures var a := Attempt(AfterAttempts(w, ds, before[..i]), ds, before[i]);
                !a.ok && (a.phase.StagingPhase? || a.phase.RelatingPhase?)
      {
        assert before[..i] == faults[..i];
      }
      m := FailedAttemptsAreResumable(start, w, ds, n, before);
      m := EarlyFailureIsResumable(start, AfterAttempts(w, ds, before), ds, m, faults[|before|]);
    }
  }

  /** What an attempt without failures does: it completes exactly when the domain takes every chunk
      and every relationship command can be made and published on the staged stores, and then shows
      the published stores without the deleted sources. */
  lemma CleanAttempt(start: System, w: World, ds: Dataset, n: nat) returns (staged: System, published: System)
    requires WellFormedDataset(ds) && Resumable(start, w, ds, n)
    ensures AdmitsFrom(ds, 0) ==> Ready(start, staged, ds)
    ensures var a := Attempt(w, ds, Unlimited);
            && (a.ok <==> AdmitsFrom(ds, 0) && RelatesFrom(ds, staged.db, 0))
            && (a.ok ==>
                  && Ready(start, published, ds) && OnlyRowsDiffer(staged, published)
                  && Published(published.db.relationships, ds.relations, |ds.relations|)
                  && SeenOf(a.world.system) == Purged(SeenOf(published), Elements(ds.deletions)))
  {
    hide StagedUpTo;
    hide Mixed;
    hide WellFormedDataset;
    hide StageAll;
    hide RelateAll;
    hide DeleteAll;
    hide SeenOf;
    hide Purged;
    hide Published;
    hide AdmitsFrom;
    hide RelatesFrom;
    hide OnlyRowsDiffer;
    var m := StagedIsReady(start, w, ds, n, Unlimited);
    var s := StagePart(Begin(w, ds), ds, Unlimited);
    staged, published := s.world.system, s.world.system;
    if s.ok {
      NothingPublishedYet(s.world.system.db.relationships, ds.relations);
      RelatingResumes(start, s.world, ds, 0, s.counters, Unlimited);
      var r := RelatePart(s, ds);
      published := r.world.system;
      if r.ok {
        DeletingPurges(r.world, ds, 0, r.counters);
        assert ds.deletions[0..] == ds.deletions;
      }
    }
  }

  /** Two resumable worlds of the same import end alike. */
  lemma CleanAttemptsAgree(start: System, w: World, n: nat, w': World, n': nat, ds: Dataset)
    requires WellFormedDataset(ds) && Resumable(start, w, ds, n) && Resumable(start, w', ds, n')
    ensures var a, b := Attempt(w, ds, Unlimited), Attempt(w', ds, Unlimited);
            (a.ok <==> b.ok) && (a.ok ==> SeenOf(a.world.system) == SeenOf(b.world.system))
  {
    hide Resumable;
    hide StagedUpTo;
    hide Mixed;
    hide WellFormedDataset;
    hide Attempt;
    hide SeenOf;
    hide Purged;
    hide Published;
    hide AdmitsFrom;
    hide Relates;
    hide OnlyRowsDiffer;
    var staged, published := CleanAttempt(start, w, ds, n);
    var staged', published' := CleanAttempt(start, w', ds, n');
    if AdmitsFrom(ds, 0) {
      SameCurrent(start, staged, staged', ds.commands);
      SameVersions(start, staged, staged', ds.commands);
      ReadyIsValid(start, staged, ds);
      ReadyIsValid(start, staged', ds);
      forall j | 0 <= j < |ds.relations|
        ensures Relates(ds.profile, staged.db, ds.relations[j]) <==> Relates(ds.profile, staged'.db, ds.relations[j])
      {
        RelatesIsSeen(ds.profile, staged, staged', ds.relations[j]);
      }
      if Attempt(w, ds, Unlimited).ok { OneEndOfPublication(start, published, published', ds); }
    }
  }

  lemma ReadyIsValid(start: System, system: System, ds: Dataset)
    requires Ready(start, system, ds)
    ensures Valid(system.db)
  {
    hide JobsUpTo;
    hide PointsTo;
    hide IndexHolds;
    hide VersionsKept;
    hide Mixed;
  }

  /** A store that has seen nothing of the dataset. */
  ghost predicate Untouched(w: World, ds: Dataset) {
    Valid(w.system.db) && w.run.None? && forall c | c in ds.commands :: Absent(w.system.db, Bare(c))
  }

  lemma UntouchedIsResumable(w: World, ds: Dataset)
    requires Untouched(w, ds)
    ensures Resumable(w.system, w, ds, 0)
  {
    hide Valid;
    hide Absent;
    hide JobDone;
    hide JobOpen;
  }

  /** Resumption converges: any number of attempts that fail while staging or relating, at any
      call, followed by one without failures, ends like one attempt without failures. */
  lemma ResumptionConverges(w: World, ds: Dataset, faults: seq<Fuel>)
    requires WellFormedDataset(ds) && Untouched(w, ds) && AllFailEarly(w, ds, faults)
    ensures var a, b := Attempt(AfterAttempts(w, ds, faults), ds, Unlimited), Attempt(w, ds, Unlimited);
            (a.ok <==> b.ok) && (a.ok ==> SeenOf(a.world.system) == SeenOf(b.world.system))
  {
    hide Resumable;
    hide WellFormedDataset;
    hide Attempt;
    hide SeenOf;
    UntouchedIsResumable(w, ds);
    var m := FailedAttemptsAreResumable(w.system, w, ds, 0, faults);
    CleanAttemptsAgree(w.system, AfterAttempts(w, ds, faults), m, w, 0, ds);
  }

  /** And what the failed attempts left behind: indexed jobs form a prefix of the commands. */
  lemma IndexedJobsArePrefix(w: World, ds: Dataset, faults: seq<Fuel>) returns (m: nat)
    requires WellFormedDataset(ds) && Untouched(w, ds) && AllFailEarly(w, ds, faults)
    ensures m <= |ds.commands|
    ensures forall i :: 0 <= i < |ds.commands| ==>
              (JobDone(AfterAttempts(w, ds, faults).system.db, Bare(ds.commands[i])) <==> i < m)
  {
    hide WellFormedDataset;
    hide Attempt;
    hide Valid;
    hide PointsTo;
    hide IndexHolds;
    hide VersionsKept;
    hide Mixed;
    UntouchedIsResumable(w, ds);
    m := FailedAttemptsAreResumable(w.system, w, ds, 0, faults);
    var db := AfterAttempts(w, ds, faults).system.db;
    forall i | m <= i < |ds.commands| ensures !JobDone(db, Bare(ds.commands[i])) {
      NotDone(db, Bare(ds.commands[i]));
    }
  }
}
