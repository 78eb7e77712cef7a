/** How the row of an import run is marked by an attempt, wherever the attempt ends. */
module ImportMarks {
  import opened Outcomes
  import opened IngestionStore
  import opened DualStore
  import opened DatasetImport
  import ImportResumption
  import Records
  import Transactions
  import Security

  /** The run stays that of its request, and is at most moved to a working status. */
  ghost predicate KeepsRun(w: World, fuel: Fuel, p: Progress) {
    && Later(fuel, p.fuel)
    && (w.run.Some? ==>
          && p.world.run.Some? && p.world.run.value.request == w.run.value.request
          && (p.world.run.value.status == w.run.value.status || p.world.run.value.status in {InStaging, InRelating, InDeleting}))
  }

  lemma KeepsRunTransitive(w: World, fuel: Fuel, p: Progress, q: Progress)
    requires KeepsRun(w, fuel, p) && KeepsRun(p.world, p.fuel, q)
    ensures KeepsRun(w, fuel, q)
  {
  }

  lemma ProcessKeepsHandlers(system: System, id: nat, chunks: seq<Chunk>, fuel: Fuel)
    ensures Later(fuel, Process(system, id, chunks, fuel).fuel)
  {
    if id in system.db.jobs && !Exhausted(fuel) { ReplacingKeepsHandlers(system, id, chunks, Spend(fuel)); }
    hide ReplaceSource;
  }

  lemma IngestKeepsHandlers(profile: Security.DomainProfile, system: System, c: Command, fuel: Fuel)
    ensures Later(fuel, Ingest(profile, system, c, fuel).fuel)
  {
    hide Process;
    hide Admits;
    if Admits(profile, c.source, c.chunks) && !Exhausted(fuel) {
      var staged := Stage(system.db, c);
      hide Stage;
      if staged.1.Ok? {
        var chunks := if KeyOf(c) in system.db.byKey then JobChunks(staged.0, staged.1.value) else c.chunks;
        ProcessKeepsHandlers(system.(db := staged.0), staged.1.value, chunks, Spend(fuel));
      }
    }
  }

  lemma UpdateKeepsRun(w: World, status: RunStatus, n: Counters, fuel: Fuel)
    requires status in {InStaging, InRelating, InDeleting}
    ensures KeepsRun(w, fuel, Update(w, status, n, fuel))
  {
  }

  lemma NextKeepsRun(w: World, system: System, fuel: Fuel, later: Fuel, p: Progress)
    requires Later(fuel, later) && KeepsRun(w.(system := system), later, p)
    ensures KeepsRun(w, fuel, p)
  {
  }

  lemma {:induction false} StagingKeepsRun(w: World, ds: Dataset, from: nat, n: Counters, fuel: Fuel)
    ensures KeepsRun(w, fuel, StageAll(w, ds, from, n, fuel))
    decreases |ds.commands| - from
  {
    hide Ingest;
    if from < |ds.commands| {
      var r := Ingest(ds.profile, w.system, Bare(ds.commands[from]), fuel);
      IngestKeepsHandlers(ds.profile, w.system, Bare(ds.commands[from]), fuel);
      var next := w.(system := r.system);
      if !r.ending.Rejected? && !r.ending.Broken? {
        var u := Update(next, InStaging, n.(indexed := n.indexed + 1), r.fuel);
        UpdateKeepsRun(next, InStaging, n.(indexed := n.indexed + 1), r.fuel);
        hide Update;
        NextKeepsRun(w, r.system, fuel, r.fuel, u);
        if u.ok {
          StagingKeepsRun(u.world, ds, from + 1, u.counters, u.fuel);
          hide KeepsRun;
          KeepsRunTransitive(w, fuel, u, StageAll(u.world, ds, from + 1, u.counters, u.fuel));
        }
      }
    }
  }

  lemma {:induction false} RelatingKeepsRun(w: World, ds: Dataset, from: nat, n: Counters, fuel: Fuel)
    ensures KeepsRun(w, fuel, RelateAll(w, ds, from, n, fuel))
    decreases |ds.relations| - from
  {
    hide ReplaceRelationships;
    hide Relatable;
    if from < |ds.relations| && Relatable(ds.profile, ds.relations[from]) && !Exhausted(fuel) {
      var r := ReplaceRelationships(w.system.db, ds.relations[from]);
      if r.1.Ok? {
        var next := w.(system := w.system.(db := r.0));
        var m := n.(published := n.published + |ds.relations[from].relationships|);
        var u := Update(next, InRelating, m, Spend(fuel));
        UpdateKeepsRun(next, InRelating, m, Spend(fuel));
        hide Update;
        NextKeepsRun(w, next.system, fuel, Spend(fuel), u);
        if u.ok {
          RelatingKeepsRun(u.world, ds, from + 1, u.counters, u.fuel);
          hide KeepsRun;
          KeepsRunTransitive(w, fuel, u, RelateAll(u.world, ds, from + 1, u.counters, u.fuel));
        }
      }
    }
  }

  lemma {:induction false} DeletingKeepsRun(w: World, ds: Dataset, from: nat, n: Counters, fuel: Fuel)
    ensures KeepsRun(w, fuel, DeleteAll(w, ds, from, n, fuel))
    decreases |ds.deletions| - from
  {
    if from < |ds.deletions| {
      var r := Remove(w.system, ds.deletions[from], fuel);
      assert Later(fuel, r.fuel);
      hide Remove;
      var next := w.(system := r.system);
      if r.ending.Done? {
        var u := Update(next, InDeleting, n.(deleted := n.deleted + 1), r.fuel);
        UpdateKeepsRun(next, InDeleting, n.(deleted := n.deleted + 1), r.fuel);
        hide Update;
        NextKeepsRun(w, r.system, fuel, r.fuel, u);
        if u.ok {
          DeletingKeepsRun(u.world, ds, from + 1, u.counters, u.fuel);
          hide KeepsRun;
          KeepsRunTransitive(w, fuel, u, DeleteAll(u.world, ds, from + 1, u.counters, u.fuel));
        }
      }
    }
  }

  /** The attempt gets as far as working on the stores. */
  predicate Starts(w: World, ds: Dataset, fuel: Fuel) {
    && !Exhausted(fuel)
    && (w.run.Some? ==> IsRunOf(w, ds) && w.run.value.status != Completed)
  }

  /** There is a run, and it was started for this dataset. */
  predicate IsRunOf(w: World, ds: Dataset) {
    && w.run.Some?
    && w.run.value.request.tenant == ds.request.tenant && w.run.value.request.domain == ds.request.domain
    && w.run.value.request.hash == ds.request.hash
  }

  lemma StagePartKeepsRun(w: World, ds: Dataset, fuel: Fuel)
    ensures KeepsRun(w, fuel, StagePart(w, ds, fuel))
  {
    var staging := StageAll(w, ds, 0, ZERO, fuel);
    StagingKeepsRun(w, ds, 0, ZERO, fuel);
    hide StageAll;
    UpdateKeepsRun(staging.world, InRelating, staging.counters, staging.fuel);
    hide Update;
    if staging.ok { KeepsRunTransitive(w, fuel, staging, StagePart(w, ds, fuel)); }
  }

  lemma RelatePartKeepsRun(p: Progress, ds: Dataset)
    ensures KeepsRun(p.world, p.fuel, RelatePart(p, ds))
  {
    var relating := RelateAll(p.world, ds, 0, p.counters, p.fuel);
    RelatingKeepsRun(p.world, ds, 0, p.counters, p.fuel);
    hide RelateAll;
    UpdateKeepsRun(relating.world, InDeleting, relating.counters, relating.fuel);
    hide Update;
    if relating.ok { KeepsRunTransitive(p.world, p.fuel, relating, RelatePart(p, ds)); }
  }

  /** Behind the last phase the run is completed, or at a working status where a write raised. */
  lemma DeletePartMarks(w: World, fuel: Fuel, p: Progress, ds: Dataset)
    requires KeepsRun(w, fuel, p) && w.run.Some? && w.run.value.status != Completed
    ensures var r := DeletePart(p, ds);
            && r.world.run.Some? && r.world.run.value.request == w.run.value.request && Later(fuel, r.fuel)
            && (r.ok <==> r.world.run.value.status == Completed)
  {
    var deleting := DeleteAll(p.world, ds, 0, p.counters, p.fuel);
    DeletingKeepsRun(p.world, ds, 0, p.counters, p.fuel);
    hide DeleteAll;
    KeepsRunTransitive(w, fuel, p, deleting);
  }

  /** An attempt that starts leaves the run completed or, if it does not complete, failed, unless the
      handler's own write raises; an attempt that does not start changes nothing, and one for an
      import that is completed says so. */
  lemma AttemptIsMarked(w: World, ds: Dataset, fuel: Fuel)
    ensures var a := Attempt(w, ds, fuel);
            && (!Starts(w, ds, fuel) ==>
                  && a.world == w
                  && (a.ok <==> !Exhausted(fuel) && IsRunOf(w, ds) && w.run.value.status == Completed))
            && (Starts(w, ds, fuel) ==>
                  && a.world.run.Some?
                  && a.world.run.value.request == (if w.run.Some? then w.run.value.request else ds.request)
                  && (a.ok <==> a.world.run.value.status == Completed)
                  && (!a.ok && (fuel.Unlimited? || fuel.importHandled) ==> a.world.run.value.status == RunFailed))
  {
    if Starts(w, ds, fuel) {
      var began := Begin(w, ds);
      StagePartKeepsRun(began, ds, Spend(fuel));
      var staged := StagePart(began, ds, Spend(fuel));
      RelatePartKeepsRun(staged, ds);
      var related := RelatePart(staged, ds);
      KeepsRunTransitive(began, Spend(fuel), staged, related);
      DeletePartMarks(began, Spend(fuel), related, ds);
      hide StagePart;
      hide RelatePart;
      hide DeletePart;
    }
  }

  /** When a relationship command passes its phase: it can be made, belongs to the domain of the
      service, is for the current version of its source, and each relationship can be published. */
  lemma RelatesExactly(profile: Security.DomainProfile, db: Db, c: Command)
    ensures ImportResumption.Relates(profile, db, c) <==>
              && WellFormed(c) && c.source.tenant == profile.tenant && c.source.domain == profile.name
              && c.source in db.sources && db.sources[c.source].version == c.version
              && forall r | r in c.relationships :: Transactions.MayPublish(db, c, r)
  {
    hide WellFormed;
    hide TargetExists;
    hide RowAllowed;
    hide Transactions.MayPublish;
    forall r ensures Transactions.MayPublish(db, c, r) <==>
                     TargetExists(db, c.source, r.to) && RowAllowed(db, Records.Row(VersionOf(c), r))
    {
      Transactions.MayPublishIsAllowed(db, c, r);
    }
  }
}
