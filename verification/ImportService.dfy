/** `DatasetImportService`: the three loops of `execute` over both stores and the import row. */
module ImportService {
  import opened Outcomes
  import opened IngestionStore
  import opened IngestionRepository
  import opened DualStore
  import opened IngestionService
  import opened DatasetImport
  import Security

  class DatasetImportService {
    const domain: Security.DomainProfile
    const repository: Repository
    const index: VectorIndex
    const calls: Calls
    const documents: DocumentIngestionService
    var run: Option<ImportRun>

    ghost predicate Linked()
    {
      && documents.domain == domain && documents.repository == repository && documents.index == index
      && documents.calls == calls
    }

    ghost function Value(): World
      reads this, repository, index
    {
      World(System(repository.Value(), index.objects), run)
    }

    constructor (domain: Security.DomainProfile, repository: Repository, index: VectorIndex, calls: Calls)
      ensures Linked() && fresh(documents)
      ensures this.domain == domain && this.repository == repository && this.index == index && this.calls == calls
      ensures run == None
    {
      this.domain, this.repository, this.index, this.calls := domain, repository, index, calls;
      documents := new DocumentIngestionService(domain, repository, index, calls);
      run := None;
    }

    method UpdateImport(status: RunStatus, n: Counters) returns (ok: bool)
      modifies this`run, calls
      ensures Progress(Value(), calls.left, ok, n) == Update(old(Value()), status, n, old(calls.left))
    {
      if run.None? { return false; }
      ok := calls.Attempted();
      if ok { run := Some(run.value.(status := status, counters := n)); }
    }

    method StageSources(ds: Dataset) returns (ok: bool, n: Counters)
      requires Linked() && ds.profile == domain
      modifies this`run, repository, index, calls
      ensures Progress(Value(), calls.left, ok, n) == StageAll(old(Value()), ds, 0, ZERO, old(calls.left))
    {
      hide Ingest;
      hide Update;
      ok, n := true, ZERO;
      for i := 0 to |ds.commands|
        invariant ok
        invariant StageAll(Value(), ds, i, n, calls.left) == StageAll(old(Value()), ds, 0, ZERO, old(calls.left))
      {
        var ending := documents.IngestCommand(Bare(ds.commands[i]));
        if ending.Rejected? || ending.Broken? { return false, n; }
        n := n.(indexed := n.indexed + 1);
        ok := UpdateImport(InStaging, n);
        if !ok { return; }
      }
    }

    /** The reader makes each command when the loop asks for it. */
    method PublishRelationships(ds: Dataset, start: Counters) returns (ok: bool, n: Counters)
      requires Linked() && ds.profile == domain
      modifies this`run, repository, index, calls
      ensures Progress(Value(), calls.left, ok, n) == RelateAll(old(Value()), ds, 0, start, old(calls.left))
    {
      hide Publishable;
      hide PublishError;
      hide Update;
      hide WellFormed;
      ok, n := true, start;
      for i := 0 to |ds.relations|
        invariant ok
        invariant RelateAll(Value(), ds, i, n, calls.left) == RelateAll(old(Value()), ds, 0, start, old(calls.left))
      {
        var c := ds.relations[i];
        if !WellFormed(c) || !InDomain(domain, c.source) { return false, n; }
        ok := calls.Attempted();
        if !ok { return; }
        var replaced := repository.Publish(c);
        if replaced.Err? { return false, n; }
        n := n.(published := n.published + |c.relationships|);
        ok := UpdateImport(InRelating, n);
        if !ok { return; }
      }
    }

    method DeleteSources(ds: Dataset, start: Counters) returns (ok: bool, n: Counters)
      requires Linked()
      modifies this`run, repository, index, calls
      ensures Progress(Value(), calls.left, ok, n) == DeleteAll(old(Value()), ds, 0, start, old(calls.left))
    {
      hide DualStore.Remove;
      hide Update;
      ok, n := true, start;
      for i := 0 to |ds.deletions|
        invariant ok
        invariant DeleteAll(Value(), ds, i, n, calls.left) == DeleteAll(old(Value()), ds, 0, start, old(calls.left))
      {
        var ending := documents.RemoveSource(ds.deletions[i]);
        if !ending.Done? { return false, n; }
        n := n.(deleted := n.deleted + 1);
        ok := UpdateImport(InDeleting, n);
        if !ok { return; }
      }
    }

    /** The handler of `execute`. */
    method FailImport(ghost n: Counters)
      modifies this`run
      ensures Value() == FailRun(Progress(old(Value()), calls.left, false, n))
    {
      if run.Some? && (calls.left.Unlimited? || calls.left.importHandled) {
        run := Some(run.value.(status := RunFailed));
      }
    }

    /** `start_import` inserts the row, or finds it: another dataset under the same import is a
        conflict and a completed import is returned as it is. */
    method Execute(ds: Dataset) returns (phase: Phase, ok: bool)
      requires Linked() && ds.profile == domain
      modifies this`run, repository, index, calls
      ensures Attempted(Value(), phase, ok) == Attempt(old(Value()), ds, old(calls.left))
    {
      hide StageAll;
      hide RelateAll;
      hide DeleteAll;
      hide Update;
      hide FailRun;
      hide SameImport;
      ok := calls.Attempted();
      if !ok || (run.Some? && !SameImport(run.value.request, ds.request)) { return StagingPhase, false; }
      if run.Some? && run.value.status.Completed? { return Finished, true; }
      if run.None? { run := Some(ImportRun(ds.request, InStaging, ZERO)); }
      var n;
      ok, n := StageSources(ds);
      if ok { ok := UpdateImport(InRelating, n); }
      if !ok { FailImport(n); return StagingPhase, false; }
      ok, n := PublishRelationships(ds, n);
      if ok { ok := UpdateImport(InDeleting, n); }
      if !ok { FailImport(n); return RelatingPhase, false; }
      ok, n := DeleteSources(ds, n);
      if ok { ok := UpdateImport(Completed, n); }
      if !ok { FailImport(n); return DeletingPhase, false; }
      phase := Finished;
    }
  }
}
