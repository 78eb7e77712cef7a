/** An import that failed can be run again: what failed attempts leave behind, and where the next
    attempt ends.
 */
module ImportResumption {
  import opened Outcomes
  import opened IngestionStore
  import opened DualStore
  import opened DatasetImport
  import opened Records
  import Security

  /** The last of the first `n` commands that is for a source. */
  function LastBefore(commands: seq<Command>, n: nat, s: SourceKey): (r: Option<nat>)
    requires n <= |commands|
    ensures r.Some? ==> r.value < n && commands[r.value].source == s
    ensures r.None? ==> forall i :: 0 <= i < n ==> commands[i].source != s
  {
    if n == 0 then None
    else if commands[n - 1].source == s then Some(n - 1)
    else LastBefore(commands, n - 1, s)
  }

  ghost predicate Distinct(commands: seq<Command>) {
    && (forall c | c in commands :: WellFormed(Bare(c)))
    && forall i, j :: 0 <= i < j < |commands| ==>
         KeyOf(commands[i]) != KeyOf(commands[j]) && VersionOf(commands[i]) != VersionOf(commands[j])
  }

  /** Indexed jobs form a prefix of the commands; the next command may have been started. */
  ghost predicate JobsUpTo(db: Db, commands: seq<Command>, n: nat) {
    && n <= |commands|
    && (forall i :: 0 <= i < n ==> JobDone(db, Bare(commands[i])))
    && (forall i :: n < i < |commands| ==> Absent(db, Bare(commands[i])))
    && (n < |commands| ==> JobOpen(db, Bare(commands[n])) || Absent(db, Bare(commands[n])))
  }

  ghost predicate IsCommandVersion(commands: seq<Command>, v: VersionKey) {
    exists i :: 0 <= i < |commands| && VersionOf(commands[i]) == v
  }

  ghost predicate VersionsKept(start: Db, db: Db, commands: seq<Command>) {
    forall v | !IsCommandVersion(commands, v) ::
      (v in db.versions <==> v in start.versions) && (v in start.versions ==> db.versions[v] == start.versions[v])
  }

  /** Where a source points after the first `n` commands. */
  ghost predicate PointsTo(start: Db, db: Db, commands: seq<Command>, n: nat, s: SourceKey)
    requires n <= |commands|
  {
    match LastBefore(commands, n, s)
    case Some(i) => s in db.sources && db.sources[s].version == commands[i].version
    case None =>
      (s in db.sources <==> s in start.sources) && (s in start.sources ==> db.sources[s].version == start.sources[s].version)
  }

  ghost predicate SameEntries(a: Index, b: Index, s: SourceKey) {
    forall k: ObjectKey | k.source == s :: (k in a <==> k in b) && (k in a ==> b[k] == a[k])
  }

  /** What the index holds for a source after the first `n` commands, unless the next command is
      for that source and may have been interrupted. */
  ghost predicate IndexHolds(start: Index, index: Index, commands: seq<Command>, n: nat, s: SourceKey)
    requires n <= |commands|
  {
    && ((forall i :: 0 <= i < |commands| ==> commands[i].source != s) ==> SameEntries(start, index, s))
    && (LastBefore(commands, n, s).Some? && !(n < |commands| && commands[n].source == s) ==>
          var i := LastBefore(commands, n, s).value;
          HoldsExactly(index, s, commands[i].version, Elements(commands[i].chunks)))
  }

  ghost predicate StagedUpTo(start: System, system: System, commands: seq<Command>, n: nat) {
    && Valid(system.db) && JobsUpTo(system.db, commands, n)
    && VersionsKept(start.db, system.db, commands)
    && (forall s :: PointsTo(start.db, system.db, commands, n, s))
    && (forall s :: IndexHolds(start.index, system.index, commands, n, s))
  }

  lemma DoneVersionIsStored(db: Db, c: Command)
    requires Valid(db) && JobDone(db, c)
    ensures VersionOf(c) in db.versions && db.versions[VersionOf(c)].hash == PayloadOf(c)
    ensures Elements(db.versions[VersionOf(c)].listing) == Elements(c.chunks)
  {
    hide RelationshipsValid;
    hide SourcesValid;
    JobVersionExists(db, db.byKey[KeyOf(c)]);
  }

  lemma JobsAdvance(profile: Security.DomainProfile, system: System, commands: seq<Command>, n: nat, fuel: Fuel)
    requires Valid(system.db) && Distinct(commands) && JobsUpTo(system.db, commands, n) && n < |commands|
    ensures var r := Ingest(profile, system, Bare(commands[n]), fuel);
            && !r.ending.Skipped?
            && JobsUpTo(r.system.db, commands, if r.ending.Done? then n + 1 else n)
  {
    hide Valid;
    hide Ingest;
    hide JobDone;
    hide JobOpen;
    hide Absent;
    hide WellFormed;
    var c := Bare(commands[n]);
    NotDone(system.db, c);
    IngestMovesOneJob(profile, system, c, fuel);
    var after := Ingest(profile, system, c, fuel).system.db;
    forall i | 0 <= i < |commands| && i != n ensures SameJob(system.db, after, Bare(commands[i])) {
      IngestSparesOthers(profile, system, c, fuel, Bare(commands[i]));
    }
  }

  lemma NotDone(db: Db, c: Command)
    requires JobOpen(db, c) || Absent(db, c)
    ensures !JobDone(db, c)
  {
  }

  lemma PointersAdvance(start: System, system: System, commands: seq<Command>, n: nat, after: System, done: bool, s: SourceKey)
    requires n < |commands| && PointsTo(start.db, system.db, commands, n, s)
    requires OnlyTouches(system, after, commands[n].source)
    requires !done ==> after.db.sources == system.db.sources
    requires done ==> commands[n].source in after.db.sources && after.db.sources[commands[n].source].version == commands[n].version
    ensures PointsTo(start.db, after.db, commands, if done then n + 1 else n, s)
  {
  }

  lemma IndexAdvances(start: System, system: System, commands: seq<Command>, n: nat, after: System, done: bool, s: SourceKey)
    requires n < |commands| && IndexHolds(start.index, system.index, commands, n, s)
    requires OnlyTouches(system, after, commands[n].source)
    requires done ==> HoldsExactly(after.index, commands[n].source, commands[n].version, Elements(commands[n].chunks))
    ensures IndexHolds(start.index, after.index, commands, if done then n + 1 else n, s)
  {
    hide HasChunk;
  }

  lemma VersionsStayKept(start: Db, before: System, after: System, commands: seq<Command>, n: nat)
    requires n < |commands| && VersionsKept(start, before.db, commands)
    requires OnlyTouches(before, after, commands[n].source)
    requires forall v | v != VersionOf(commands[n]) :: v in after.db.versions ==> v in before.db.versions
    ensures VersionsKept(start, after.db, commands)
  {
    assert IsCommandVersion(commands, VersionOf(commands[n]));
  }

  lemma StagingAdvances(profile: Security.DomainProfile, start: System, system: System, commands: seq<Command>, n: nat, fuel: Fuel)
    requires Distinct(commands) && n < |commands| && StagedUpTo(start, system, commands, n)
    ensures var r := Ingest(profile, system, Bare(commands[n]), fuel);
            && !r.ending.Skipped?
            && StagedUpTo(start, r.system, commands, if r.ending.Done? then n + 1 else n)
            && r.system.db.relationships == system.db.relationships
            && (!Admits(profile, commands[n].source, commands[n].chunks) ==> r.ending.Rejected?)
            && (fuel.Unlimited? && Admits(profile, commands[n].source, commands[n].chunks) ==> r.ending.Done? && r.fuel == fuel)
  {
    hide Admits;
    hide Valid;
    hide Ingest;
    hide JobDone;
    hide JobOpen;
    hide Absent;
    hide WellFormed;
    hide HoldsExactly;
    hide OnlyTouches;
    hide Extends;
    hide PointsTo;
    hide IndexHolds;
    hide VersionsKept;
    var c := Bare(commands[n]);
    var r := Ingest(profile, system, c, fuel);
    IngestEffect(profile, system, c, fuel);
    IngestMovesOneJob(profile, system, c, fuel);
    JobsAdvance(profile, system, commands, n, fuel);
    VersionsStayKept(start.db, system, r.system, commands, n);
    if r.ending.Done? { DoneVersionIsStored(r.system.db, c); }
    var m := if r.ending.Done? then n + 1 else n;
    forall s ensures PointsTo(start.db, r.system.db, commands, m, s) {
      PointersAdvance(start, system, commands, n, r.system, r.ending.Done?, s);
    }
    forall s ensures IndexHolds(start.index, r.system.index, commands, m, s) {
      IndexAdvances(start, system, commands, n, r.system, r.ending.Done?, s);
    }
  }

  /** The same import, and not completed if it was not. */
  predicate SameRun(a: ImportRun, b: ImportRun) {
    b.request == a.request && (!a.status.Completed? ==> !b.status.Completed?)
  }

  /** The domain takes the chunks of every command from one on. */
  predicate AdmitsFrom(ds: Dataset, from: nat) {
    forall i :: from <= i < |ds.commands| ==> Admits(ds.profile, ds.commands[i].source, ds.commands[i].chunks)
  }

  lemma AdmitsStep(ds: Dataset, from: nat)
    requires from < |ds.commands|
    ensures AdmitsFrom(ds, from) <==>
              Admits(ds.profile, ds.commands[from].source, ds.commands[from].chunks) && AdmitsFrom(ds, from + 1)
  {
    hide Admits;
  }

  /** The staging loop, from any command already behind it: it skips what is indexed, goes on from
      there, and where it stops the indexed jobs are again a prefix. Without failures it stops only
      at a command whose chunks the domain does not take. */
  lemma {:induction false} StagingResumes(start: System, w: World, ds: Dataset, from: nat, n: nat, counters: Counters, fuel: Fuel)
    returns (m: nat)
    requires Distinct(ds.commands) && from <= n && StagedUpTo(start, w.system, ds.commands, n)
    ensures var p := StageAll(w, ds, from, counters, fuel);
            && n <= m <= |ds.commands| && StagedUpTo(start, p.world.system, ds.commands, m)
            && (p.ok ==> m == |ds.commands| && AdmitsFrom(ds, from))
            && p.world.system.db.relationships == w.system.db.relationships
            && (p.world.run.Some? <==> w.run.Some?) && (w.run.Some? ==> SameRun(w.run.value, p.world.run.value))
            && (fuel.Unlimited? && w.run.Some? && AdmitsFrom(ds, from) ==> p.ok && p.fuel == fuel)
    decreases |ds.commands| - from
  {
    hide StagedUpTo;
    hide Ingest;
    hide Distinct;
    hide AdmitsFrom;
    hide Admits;
    var commands := ds.commands;
    m := n;
    Bounded(start, w.system, commands, n);
    if from < |commands| {
      var c := Bare(commands[from]);
      var r := Ingest(ds.profile, w.system, c, fuel);
      AdmitsStep(ds, from);
      if from < n {
        SkipsIndexed(ds.profile, start, w.system, commands, from, n, fuel);
      } else {
        StagingAdvances(ds.profile, start, w.system, commands, n, fuel);
        m := if r.ending.Done? then n + 1 else n;
      }
      if r.ending.Done? || r.ending.Skipped? {
        var u := Update(w.(system := r.system), InStaging, counters.(indexed := counters.indexed + 1), r.fuel);
        if u.ok { m := StagingResumes(start, u.world, ds, from + 1, m, u.counters, u.fuel); }
      }
      Bounded(start, StageAll(w, ds, from, counters, fuel).world.system, commands, m);
    } else {
      NoneLeftToAdmit(ds, from);
    }
  }

  lemma NoneLeftToAdmit(ds: Dataset, from: nat)
    requires from >= |ds.commands|
    ensures AdmitsFrom(ds, from)
  {
  }

  lemma Bounded(start: System, system: System, commands: seq<Command>, n: nat)
    ensures StagedUpTo(start, system, commands, n) ==> n <= |commands|
  {
    hide Valid;
    hide PointsTo;
    hide IndexHolds;
  }

  lemma SkipsIndexed(profile: Security.DomainProfile, start: System, system: System, commands: seq<Command>, i: nat, n: nat, fuel: Fuel)
    requires Distinct(commands) && i < n && StagedUpTo(start, system, commands, n)
    ensures i < |commands|
    ensures var r := Ingest(profile, system, Bare(commands[i]), fuel);
            && r.system == system && (r.ending.Skipped? || r.ending.Rejected?)
            && (r.ending.Skipped? ==> Admits(profile, commands[i].source, commands[i].chunks))
            && (fuel.Unlimited? && Admits(profile, commands[i].source, commands[i].chunks) ==> r.ending.Skipped? && r.fuel == fuel)
  {
    hide Valid;
    hide Ingest;
    hide JobOpen;
    hide Absent;
    hide WellFormed;
    hide PointsTo;
    hide IndexHolds;
    hide VersionsKept;
    assert JobDone(system.db, Bare(commands[i]));
    IngestMovesOneJob(profile, system, Bare(commands[i]), fuel);
  }

  // ---------------------------------------------------------------------------- publication

  ghost predicate Owns(relations: seq<Command>, v: VersionKey) {
    exists j :: 0 <= j < |relations| && VersionOf(relations[j]) == v
  }

  /** Rows of one owner. */
  ghost predicate RowsAre(rows: set<Row>, owner: VersionKey, expected: set<Row>) {
    forall row: Row | row.owner == owner :: row in rows <==> row in expected
  }

  /** Each owner has either the rows it had before the import or the ones its command publishes;
      every other row is as it was. */
  ghost predicate Mixed(start: set<Row>, rows: set<Row>, relations: seq<Command>) {
    && (forall row: Row | !Owns(relations, row.owner) :: row in rows <==> row in start)
    && forall j :: 0 <= j < |relations| ==>
         || RowsAre(rows, VersionOf(relations[j]), RowsOf(relations[j]))
         || RowsAre(rows, VersionOf(relations[j]), start)
  }

  ghost predicate Published(rows: set<Row>, relations: seq<Command>, n: nat) {
    forall j :: 0 <= j < n && j < |relations| ==> RowsAre(rows, VersionOf(relations[j]), RowsOf(relations[j]))
  }

  ghost predicate DistinctOwners(relations: seq<Command>) {
    forall i, j :: 0 <= i < j < |relations| ==> VersionOf(relations[i]) != VersionOf(relations[j])
  }

  lemma PublishEffect(db: Db, relations: seq<Command>, n: nat, start: set<Row>)
    requires n < |relations| && DistinctOwners(relations)
    requires Mixed(start, db.relationships, relations) && Published(db.relationships, relations, n)
    requires Publishable(db, relations[n])
    ensures var rows := ReplaceRelationships(db, relations[n]).0.relationships;
            Mixed(start, rows, relations) && Published(rows, relations, n + 1)
  {
    hide Publishable;
    var c := relations[n];
    var rows := ReplaceRelationships(db, c).0.relationships;
    assert forall row | row in RowsOf(c) :: row.owner == VersionOf(c);
    assert RowsAre(rows, VersionOf(c), RowsOf(c));
    assert Owns(relations, VersionOf(c));
    forall j | 0 <= j < |relations| && j != n
      ensures forall row: Row | row.owner == VersionOf(relations[j]) :: row in rows <==> row in db.relationships
    {
      assert VersionOf(relations[j]) != VersionOf(c);
    }
  }

  /** All commands are staged and every owner's rows are old or published. */
  ghost predicate Ready(start: System, system: System, ds: Dataset) {
    && StagedUpTo(start, system, ds.commands, |ds.commands|)
    && Mixed(start.db.relationships, system.db.relationships, ds.relations)
  }

  lemma DatasetParts(ds: Dataset)
    requires WellFormedDataset(ds)
    ensures Distinct(ds.commands) && DistinctOwners(ds.relations)
    ensures forall r | r in ds.relations :: StagedAs(ds, r)
  {
    hide WellFormed;
  }

  /** The stored chunks of a relationship command's version are the command's chunks. */
  lemma PublishesStoredVersion(start: System, system: System, ds: Dataset, r: Command)
    requires Ready(start, system, ds) && StagedAs(ds, r)
    ensures VersionOf(r) in system.db.versions && Elements(system.db.versions[VersionOf(r)].listing) == Elements(r.chunks)
  {
    hide Valid;
    hide PointsTo;
    hide IndexHolds;
    hide VersionsKept;
    hide Mixed;
    var i :| 0 <= i < |ds.commands| && VersionOf(ds.commands[i]) == VersionOf(r)
             && Elements(ds.commands[i].chunks) == Elements(r.chunks);
    DoneVersionIsStored(system.db, Bare(ds.commands[i]));
  }

  /** Everything but the relationship rows is the same. */
  ghost predicate OnlyRowsDiffer(a: System, b: System) {
    b == System(a.db.(relationships := b.db.relationships), a.index)
  }

  lemma ReadyAfterPublishing(start: System, system: System, ds: Dataset, n: nat)
    requires WellFormedDataset(ds) && Ready(start, system, ds) && n < |ds.relations|
    requires Published(system.db.relationships, ds.relations, n) && Publishable(system.db, ds.relations[n])
    ensures var after := System(ReplaceRelationships(system.db, ds.relations[n]).0, system.index);
            && Ready(start, after, ds) && Published(after.db.relationships, ds.relations, n + 1)
            && OnlyRowsDiffer(system, after)
  {
    DatasetParts(ds);
    var r := ds.relations[n];
    var after := System(ReplaceRelationships(system.db, r).0, system.index);
    PublishEffect(system.db, ds.relations, n, start.db.relationships);
    assert Valid(after.db) by { ReplaceKeepsValid(system.db, r); }
    StagedIgnoresRows(start, system, after, ds.commands, |ds.commands|);
  }

  lemma StagedIgnoresRows(start: System, a: System, b: System, commands: seq<Command>, n: nat)
    requires StagedUpTo(start, a, commands, n) && OnlyRowsDiffer(a, b) && Valid(b.db)
    ensures StagedUpTo(start, b, commands, n)
  {
    hide Valid;
    hide IndexHolds;
    hide LastBefore;
    forall s ensures PointsTo(start.db, b.db, commands, n, s) { assert PointsTo(start.db, a.db, commands, n, s); }
  }

  lemma PublishableIgnoresRows(a: System, b: System, c: Command)
    requires OnlyRowsDiffer(a, b)
    ensures Publishable(a.db, c) <==> Publishable(b.db, c)
  {
    forall r | r in c.relationships ensures TargetExists(a.db, c.source, r.to) <==> TargetExists(b.db, c.source, r.to) {}
  }

  /** The command can be made and published. */
  predicate Relates(profile: Security.DomainProfile, db: Db, c: Command) { Relatable(profile, c) && Publishable(db, c) }

  predicate RelatesFrom(ds: Dataset, db: Db, from: nat) {
    forall j :: from <= j < |ds.relations| ==> Relates(ds.profile, db, ds.relations[j])
  }

  lemma RelatesStep(ds: Dataset, db: Db, from: nat)
    requires from < |ds.relations|
    ensures RelatesFrom(ds, db, from) <==> Relates(ds.profile, db, ds.relations[from]) && RelatesFrom(ds, db, from + 1)
  {
    hide Relates;
  }

  lemma RelatesIgnoresRows(ds: Dataset, a: System, b: System, from: nat)
    requires OnlyRowsDiffer(a, b)
    ensures RelatesFrom(ds, a.db, from) <==> RelatesFrom(ds, b.db, from)
  {
    hide Publishable;
    forall j | from <= j < |ds.relations| ensures Relates(ds.profile, a.db, ds.relations[j]) <==> Relates(ds.profile, b.db, ds.relations[j]) {
      PublishableIgnoresRows(a, b, ds.relations[j]);
    }
  }

  lemma NoneLeftToRelate(ds: Dataset, db: Db, from: nat)
    requires from >= |ds.relations|
    ensures RelatesFrom(ds, db, from)
  {
  }

  /** The relating loop publishes command after command; without failures it stops only at a
      command that cannot be made or published. */
  lemma {:induction false} RelatingResumes(start: System, w: World, ds: Dataset, from: nat, counters: Counters, fuel: Fuel)
    requires WellFormedDataset(ds) && Ready(start, w.system, ds) && from <= |ds.relations|
    requires Published(w.system.db.relationships, ds.relations, from)
    ensures var p := RelateAll(w, ds, from, counters, fuel);
            && Ready(start, p.world.system, ds) && OnlyRowsDiffer(w.system, p.world.system)
            && (p.ok ==> Published(p.world.system.db.relationships, ds.relations, |ds.relations|))
            && (p.world.run.Some? <==> w.run.Some?) && (w.run.Some? ==> SameRun(w.run.value, p.world.run.value))
            && (p.ok ==> RelatesFrom(ds, w.system.db, from))
            && (fuel.Unlimited? && w.run.Some? && RelatesFrom(ds, w.system.db, from) ==> p.ok && p.fuel == fuel)
    decreases |ds.relations| - from
  {
    hide Ready;
    hide Published;
    hide WellFormedDataset;
    hide Publishable;
    hide RelatesFrom;
    hide Relatable;
    if from == |ds.relations| {
      NoneLeftToRelate(ds, w.system.db, from);
    } else {
      RelatesStep(ds, w.system.db, from);
      if Relates(ds.profile, w.system.db, ds.relations[from]) && !Exhausted(fuel) {
        var c := ds.relations[from];
        var after := System(ReplaceRelationships(w.system.db, c).0, w.system.index);
        ReadyAfterPublishing(start, w.system, ds, from);
        var next := w.(system := after);
        var u := Update(next, InRelating, counters.(published := counters.published + |c.relationships|), Spend(fuel));
        RelatesIgnoresRows(ds, w.system, after, from + 1);
        if u.ok { RelatingResumes(start, u.world, ds, from + 1, u.counters, u.fuel); }
      }
    }
  }

  lemma NothingPublishedYet(rows: set<Row>, relations: seq<Command>)
    ensures Published(rows, relations, 0)
  {
  }
}
