/** `WeaviateVectorIndex` and `DocumentIngestionService`: the steps over both stores in the order
    in which the code takes them, with calls that may fail anywhere.
 */
module IngestionService {
  import opened IngestionStore
  import opened IngestionRepository
  import opened DualStore
  import opened Records
  import Security

  /** The part of the outside world that decides which call to a store is the first to raise. */
  class Calls {
    var left: Fuel

    constructor (fuel: Fuel)
      ensures left == fuel
    {
      left := fuel;
    }

    method Attempted() returns (ok: bool)
      modifies this
      ensures ok == !Exhausted(old(left))
      ensures left == if ok then Spend(old(left)) else old(left)
    {
      ok := !Exhausted(left);
      if ok { left := Spend(left); }
    }
  }

  class VectorIndex {
    var objects: Index

    constructor ()
      ensures objects == map[]
    {
      objects := map[];
    }

    /** Embeds, deletes every object of the source, then inserts chunk by chunk; a failure leaves
        what has been inserted so far. */
    method Replace(s: SourceKey, version: string, chunks: seq<Chunk>, calls: Calls) returns (ok: bool)
      modifies this, calls
      ensures (objects, calls.left, ok) == ReplaceSource(old(objects), s, version, chunks, old(calls.left))
    {
      ok := calls.Attempted();
      if !ok { return; }
      ok := calls.Attempted();
      if !ok { return; }
      objects := map k | k in objects && k.source != s :: objects[k];
      for i := 0 to |chunks|
        invariant ok
        invariant InsertChunks(objects, s, version, chunks[i..], calls.left)
               == ReplaceSource(old(objects), s, version, chunks, old(calls.left))
      {
        assert chunks[i..][1..] == chunks[i + 1..];
        var key := ObjectKey(s, chunks[i].id);
        if key in objects { return false; }
        ok := calls.Attempted();
        if !ok { return; }
        objects := objects[key := Entry(version, chunks[i])];
      }
    }

    method Delete(s: SourceKey)
      modifies this
      ensures objects == WithoutSource(old(objects), s)
    {
      objects := map k | k in objects && k.source != s :: objects[k];
    }

    /** `count`: how many objects of a tenant's domain the index holds. */
    method Count(tenant: string, domain: string) returns (n: nat)
      ensures n == |IndexedChunks(objects, tenant, domain)|
    {
      var counted: set<ObjectKey> := {};
      var rest := objects.Keys;
      n := 0;
      while rest != {}
        invariant rest <= objects.Keys
        invariant counted == set k | k in objects && k !in rest && InScope(k.source, tenant, domain)
        invariant n == |counted|
        decreases |rest|
      {
        var k :| k in rest;
        rest := rest - {k};
        if InScope(k.source, tenant, domain) {
          counted := counted + {k};
          n := n + 1;
        }
      }
      assert counted == IndexedChunks(objects, tenant, domain);
    }
  }

  class DocumentIngestionService {
    const domain: Security.DomainProfile
    const repository: Repository
    const index: VectorIndex
    const calls: Calls

    constructor (domain: Security.DomainProfile, repository: Repository, index: VectorIndex, calls: Calls)
      ensures this.domain == domain && this.repository == repository && this.index == index && this.calls == calls
    {
      this.domain, this.repository, this.index, this.calls := domain, repository, index, calls;
    }

    ghost function Value(): System
      reads repository, index
    {
      System(repository.Value(), index.objects)
    }

    /** `_verify_boundary`, on what a command or a loaded job carries. */
    method VerifyBoundary(s: SourceKey, chunks: seq<Chunk>) returns (admitted: bool)
      ensures admitted == Admits(domain, s, chunks)
    {
      var plain := seq(|chunks|, i requires 0 <= i < |chunks| =>
        Security.Chunk(s.tenant, s.domain, chunks[i].acl, chunks[i].security));
      var r := Security.VerifyIngestionBoundary(domain, s.tenant, s.domain, plain);
      assert forall i | 0 <= i < |chunks| :: plain[i] in plain && chunks[i] in chunks;
      admitted := r.Ok?;
    }

    /** `_process`: the failure branch marks the job failed, if that write itself succeeds. */
    method ProcessJob(id: nat, chunks: seq<Chunk>) returns (ending: Ending)
      modifies repository, index, calls
      ensures Ingested(Value(), calls.left, ending) == Process(old(Value()), id, chunks, old(calls.left))
    {
      if id !in repository.jobs { return Rejected; }
      if repository.jobs[id].status == IngestionStore.Indexed { return Skipped; }
      var ok := calls.Attempted();
      if !ok { return Rejected; }
      var v := repository.jobs[id].version;
      var entered := repository.EnterIndexing(id);
      ok := index.Replace(v.source, v.version, chunks, calls);
      if ok { ok := calls.Attempted(); }
      if ok {
        var indexed := repository.EnterIndexed(id);
        return Done;
      }
      if calls.left.Unlimited? || calls.left.jobHandled {
        var failed := repository.EnterFailed(id);
      }
      ending := Broken;
    }

    method IngestCommand(c: Command) returns (ending: Ending)
      modifies repository, index, calls
      ensures Ingested(Value(), calls.left, ending) == Ingest(domain, old(Value()), c, old(calls.left))
    {
      hide Admits;
      var admitted := VerifyBoundary(c.source, c.chunks);
      if !admitted { return Rejected; }
      var ok := calls.Attempted();
      if !ok { return Rejected; }
      var known := KeyOf(c) in repository.byKey;
      var staged := repository.StageCommand(c);
      if staged.Err? { return Rejected; }
      var chunks := c.chunks;
      if known { chunks := repository.LoadChunks(staged.value); }
      ending := ProcessJob(staged.value, chunks);
    }

    /** `retry`: loads the job with its stored chunks, and checks them against the domain again. */
    method RetryJob(id: nat) returns (ending: Ending)
      modifies repository, index, calls
      ensures Ingested(Value(), calls.left, ending) == Reprocess(domain, old(Value()), id, old(calls.left))
    {
      hide Admits;
      var ok := calls.Attempted();
      if !ok || id !in repository.jobs { return Rejected; }
      var chunks := repository.LoadChunks(id);
      var admitted := VerifyBoundary(repository.jobs[id].version.source, chunks);
      if !admitted { return Rejected; }
      ending := ProcessJob(id, chunks);
    }

    /** The index is cleared first, so a stop in between leaves a pointer without objects. */
    method RemoveSource(s: SourceKey) returns (ending: Ending)
      modifies repository, index, calls
      ensures Ingested(Value(), calls.left, ending) == Remove(old(Value()), s, old(calls.left))
    {
      var ok := calls.Attempted();
      if !ok { return Rejected; }
      index.Delete(s);
      ok := calls.Attempted();
      if !ok { return Broken; }
      repository.Remove(s);
      ending := Done;
    }
  }
}
