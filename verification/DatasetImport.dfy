/** `DatasetImportService.execute`: three phases over both stores, each of which may fail at any
    call and be run again from the start.
 */
module DatasetImport {
  import opened Outcomes
  import opened IngestionStore
  import opened DualStore
  import opened Records
  import Security

  datatype RunStatus = InStaging | InRelating | InDeleting | Completed | RunFailed

  /** What `prepare` reports: the identity of the dataset and how much it holds. */
  datatype ImportRequest = ImportRequest(
    tenant: string, domain: string, hash: string, sources: nat, chunks: nat, relationships: nat, deletions: nat)

  datatype Counters = Counters(indexed: nat, published: nat, deleted: nat)

  datatype ImportRun = ImportRun(request: ImportRequest, status: RunStatus, counters: Counters)

  /** What the reader hands out for the domain of the service: every source version in order, the
      current version of every source with its relationships, and the sources to delete. */
  datatype Dataset = Dataset(
    profile: Security.DomainProfile, request: ImportRequest, commands: seq<Command>, relations: seq<Command>,
    deletions: seq<SourceKey>)

  /** Both stores and the row of this import. */
  datatype World = World(system: System, run: Option<ImportRun>)

  datatype Phase = StagingPhase | RelatingPhase | DeletingPhase | Finished

  /** How far a sequence of calls got. */
  datatype Progress = Progress(world: World, fuel: Fuel, ok: bool, counters: Counters)

  datatype Attempted = Attempted(world: World, phase: Phase, ok: bool)

  const ZERO: Counters := Counters(0, 0, 0)

  function Bare(c: Command): Command { c.(relationships := []) }

  predicate SameImport(a: ImportRequest, b: ImportRequest) {
    a.tenant == b.tenant && a.domain == b.domain && a.hash == b.hash
  }

  function Update(w: World, status: RunStatus, n: Counters, fuel: Fuel): Progress {
    if Exhausted(fuel) || w.run.None? then Progress(w, fuel, false, n)
    else Progress(w.(run := Some(w.run.value.(status := status, counters := n))), Spend(fuel), true, n)
  }

  function StageAll(w: World, ds: Dataset, from: nat, n: Counters, fuel: Fuel): Progress
    decreases |ds.commands| - from
  {
    if from >= |ds.commands| then Progress(w, fuel, true, n)
    else
      var r := Ingest(ds.profile, w.system, Bare(ds.commands[from]), fuel);
      var next := w.(system := r.system);
      if r.ending.Rejected? || r.ending.Broken? then Progress(next, r.fuel, false, n)
      else
        var u := Update(next, InStaging, n.(indexed := n.indexed + 1), r.fuel);
        if !u.ok then u else StageAll(u.world, ds, from + 1, u.counters, u.fuel)
  }

  /** The command could be made, and belongs to the domain. */
  predicate Relatable(profile: Security.DomainProfile, c: Command) { WellFormed(c) && InDomain(profile, c.source) }

  function RelateAll(w: World, ds: Dataset, from: nat, n: Counters, fuel: Fuel): Progress
    decreases |ds.relations| - from
  {
    if from >= |ds.relations| then Progress(w, fuel, true, n)
    else if !Relatable(ds.profile, ds.relations[from]) || Exhausted(fuel) then Progress(w, fuel, false, n)
    else
      var r := ReplaceRelationships(w.system.db, ds.relations[from]);
      if r.1.Err? then Progress(w, Spend(fuel), false, n)
      else
        var next := w.(system := w.system.(db := r.0));
        var m := n.(published := n.published + |ds.relations[from].relationships|);
        var u := Update(next, InRelating, m, Spend(fuel));
        if !u.ok then u else RelateAll(u.world, ds, from + 1, u.counters, u.fuel)
  }

  function DeleteAll(w: World, ds: Dataset, from: nat, n: Counters, fuel: Fuel): Progress
    decreases |ds.deletions| - from
  {
    if from >= |ds.deletions| then Progress(w, fuel, true, n)
    else
      var r := Remove(w.system, ds.deletions[from], fuel);
      var next := w.(system := r.system);
      if !r.ending.Done? then Progress(next, r.fuel, false, n)
      else
        var u := Update(next, InDeleting, n.(deleted := n.deleted + 1), r.fuel);
        if !u.ok then u else DeleteAll(u.world, ds, from + 1, u.counters, u.fuel)
  }

  /** The handler marks the run failed, if its own write succeeds. */
  function FailRun(p: Progress): World {
    if p.world.run.None? || (p.fuel.Left? && !p.fuel.importHandled) then p.world
    else p.world.(run := Some(p.world.run.value.(status := RunFailed)))
  }

  function Begin(w: World, ds: Dataset): World {
    if w.run.Some? then w else w.(run := Some(ImportRun(ds.request, InStaging, ZERO)))
  }

  /** The phase after a phase, with the status written in between. */
  function Enter(p: Progress, status: RunStatus): Progress {
    if !p.ok then p else Update(p.world, status, p.counters, p.fuel)
  }

  function StagePart(w: World, ds: Dataset, fuel: Fuel): Progress {
    Enter(StageAll(w, ds, 0, ZERO, fuel), InRelating)
  }

  function RelatePart(p: Progress, ds: Dataset): Progress {
    Enter(RelateAll(p.world, ds, 0, p.counters, p.fuel), InDeleting)
  }

  function DeletePart(p: Progress, ds: Dataset): Progress {
    Enter(DeleteAll(p.world, ds, 0, p.counters, p.fuel), Completed)
  }

  function Attempt(w: World, ds: Dataset, fuel: Fuel): Attempted {
    if Exhausted(fuel) || (w.run.Some? && !SameImport(w.run.value.request, ds.request)) then Attempted(w, StagingPhase, false)
    else if w.run.Some? && w.run.value.status.Completed? then Attempted(w, Finished, true)
    else
      var staged := StagePart(Begin(w, ds), ds, Spend(fuel));
      if !staged.ok then Attempted(FailRun(staged), StagingPhase, false)
      else
        var related := RelatePart(staged, ds);
        if !related.ok then Attempted(FailRun(related), RelatingPhase, false)
        else
          var deleted := DeletePart(related, ds);
          if !deleted.ok then Attempted(FailRun(deleted), DeletingPhase, false)
          else Attempted(deleted.world, Finished, true)
  }

  // ------------------------------------------------------------------------- well-formedness

  /** Staged commands went through their constructor; source versions and idempotency keys are
      distinct; and each relationship command is for a staged version with the same chunks, one
      command a version. Whether it could be made is found out while relating. */
  ghost predicate WellFormedDataset(ds: Dataset) {
    && (forall c | c in ds.commands :: WellFormed(Bare(c)))
    && (forall i, j :: 0 <= i < j < |ds.commands| ==>
          KeyOf(ds.commands[i]) != KeyOf(ds.commands[j]) && VersionOf(ds.commands[i]) != VersionOf(ds.commands[j]))
    && (forall i, j :: 0 <= i < j < |ds.relations| ==> VersionOf(ds.relations[i]) != VersionOf(ds.relations[j]))
    && (forall r | r in ds.relations :: StagedAs(ds, r))
  }

  ghost predicate StagedAs(ds: Dataset, r: Command) {
    exists i :: 0 <= i < |ds.commands| && VersionOf(ds.commands[i]) == VersionOf(r)
                && Elements(ds.commands[i].chunks) == Elements(r.chunks)
  }

  // ---------------------------------------------------------------------- one command's job

  ghost predicate JobDone(db: Db, c: Command) {
    && KeyOf(c) in db.byKey && db.byKey[KeyOf(c)] in db.jobs
    && var job := db.jobs[db.byKey[KeyOf(c)]];
    && job.version == VersionOf(c) && job.hash == PayloadOf(c) && job.status.Indexed?
  }

  ghost predicate JobOpen(db: Db, c: Command) {
    && KeyOf(c) in db.byKey && db.byKey[KeyOf(c)] in db.jobs
    && var job := db.jobs[db.byKey[KeyOf(c)]];
    && job.version == VersionOf(c) && job.hash == PayloadOf(c) && !job.status.Indexed?
  }

  ghost predicate Absent(db: Db, c: Command) { KeyOf(c) !in db.byKey && VersionOf(c) !in db.versions }

  /** The rows that speak of a command are the same. */
  ghost predicate SameJob(a: Db, b: Db, d: Command) {
    && (JobDone(a, d) <==> JobDone(b, d)) && (Absent(a, d) <==> Absent(b, d))
  }

  lemma {:induction false} IngestMovesOneJob(profile: Security.DomainProfile, system: System, c: Command, fuel: Fuel)
    requires Valid(system.db) && WellFormed(c) && c.relationships == []
    requires JobDone(system.db, c) || JobOpen(system.db, c) || Absent(system.db, c)
    ensures var r := Ingest(profile, system, c, fuel);
            && (!Admits(profile, c.source, c.chunks) || Exhausted(fuel) ==> r == Ingested(system, fuel, Rejected))
            && (JobDone(system.db, c) && Admits(profile, c.source, c.chunks) && !Exhausted(fuel) ==>
                  r == Ingested(system, Spend(fuel), Skipped))
            && (!JobDone(system.db, c) ==>
                  && !r.ending.Skipped?
                  && (r.ending.Done? ==> JobDone(r.system.db, c))
                  && (!r.ending.Done? ==> JobOpen(r.system.db, c) || Absent(r.system.db, c)))
            && r.system.db.relationships == system.db.relationships
            && (forall v | v != VersionOf(c) :: v in r.system.db.versions ==> v in system.db.versions)
            && (fuel.Unlimited? && Admits(profile, c.source, c.chunks) ==> r.fuel == fuel && (r.ending.Done? || r.ending.Skipped?))
  {
    hide Valid;
    hide Process;
    hide Agrees;
    hide OnlyTouches;
    hide Extends;
    hide PayloadOf;
    hide Admits;
    hide JobChunks;
    if Admits(profile, c.source, c.chunks) && !Exhausted(fuel) {
      var staged := Stage(system.db, c);
      StagesWithoutConflict(system.db, c);
      StagedJob(system.db, c);
      ApplyKeepsValid(system.db, Staging(c));
      IngestedChunks(system.db, c);
      hide Stage;
      var id := staged.1.value;
      var chunks := if KeyOf(c) in system.db.byKey then JobChunks(staged.0, id) else c.chunks;
      ProcessEffect(System(staged.0, system.index), id, chunks, Spend(fuel));
      ProcessSkips(System(staged.0, system.index), id, chunks, Spend(fuel));
    }
  }

  lemma StagesWithoutConflict(db: Db, c: Command)
    requires Valid(db) && c.relationships == []
    requires JobDone(db, c) || JobOpen(db, c) || Absent(db, c)
    ensures Stage(db, c).1.Ok?
    ensures KeyOf(c) in db.byKey ==> Stage(db, c).0 == db && Stage(db, c).1.value == db.byKey[KeyOf(c)]
    ensures KeyOf(c) !in db.byKey ==> Stage(db, c).1.value !in db.jobs
  {
    hide VersionsValid;
    hide SourcesValid;
    hide RelationshipsValid;
    hide TargetExists;
  }

  lemma ProcessSkips(system: System, id: nat, chunks: seq<Chunk>, fuel: Fuel)
    requires id in system.db.jobs
    ensures system.db.jobs[id].status.Indexed? ==> Process(system, id, chunks, fuel) == Ingested(system, fuel, Skipped)
  {
  }

  lemma StageSparesOthers(db: Db, c: Command, d: Command)
    requires Valid(db) && KeyOf(c) != KeyOf(d) && VersionOf(c) != VersionOf(d)
    ensures SameJob(db, Stage(db, c).0, d)
  {
    hide VersionsValid;
    hide SourcesValid;
    hide RelationshipsValid;
    hide TargetsKnown;
    hide PayloadOf;
  }

  lemma MoveSparesOthers(a: Db, b: Db, id: nat, c: Command, d: Command)
    requires JobsValid(a) && OneJobMoved(a, b, id) && a.jobs[id].key == KeyOf(c) && KeyOf(c) != KeyOf(d)
    ensures SameJob(a, b, d)
  {
    hide PayloadOf;
  }

  lemma IngestSparesOthers(profile: Security.DomainProfile, system: System, c: Command, fuel: Fuel, d: Command)
    requires Valid(system.db) && WellFormed(c) && KeyOf(c) != KeyOf(d) && VersionOf(c) != VersionOf(d)
    ensures SameJob(system.db, Ingest(profile, system, c, fuel).system.db, d)
  {
    hide JobsValid;
    hide VersionsValid;
    hide SourcesValid;
    hide RelationshipsValid;
    hide Process;
    hide Agrees;
    hide OnlyTouches;
    hide Extends;
    hide PayloadOf;
    hide JobDone;
    hide Absent;
    hide WellFormed;
    hide OneJobMoved;
    hide Admits;
    hide JobChunks;
    if !Admits(profile, c.source, c.chunks) || Exhausted(fuel) {
    } else if Stage(system.db, c).1.Ok? {
      var staged := Stage(system.db, c);
      StagedJob(system.db, c);
      ApplyKeepsValid(system.db, Staging(c));
      StageSparesOthers(system.db, c, d);
      IngestedChunks(system.db, c);
      var chunks := if KeyOf(c) in system.db.byKey then JobChunks(staged.0, staged.1.value) else c.chunks;
      ProcessEffect(System(staged.0, system.index), staged.1.value, chunks, Spend(fuel));
      MoveSparesOthers(staged.0, Process(System(staged.0, system.index), staged.1.value, chunks, Spend(fuel)).system.db,
                       staged.1.value, c, d);
    } else {
      StagingExtends(system.db, c);
    }
  }
}
