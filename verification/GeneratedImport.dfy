/** From configuration to published sources: exactly which domains of a generated dataset are imported
    completely.
 */
module GeneratedImport {
  import opened Outcomes
  import opened Identifiers
  import opened Generator
  import opened GeneratedEdges
  import opened DatasetReader
  import opened ReaderProperties
  import opened GeneratedDataset
  import opened GeneratedReading
  import ReaderCommands
  import opened ReaderImport
  import Records
  import DualStore
  import DatasetImport
  import ImportConvergence
  import Security

  lemma InnerEdgeNodes(c: Config, body: Bodies, d: nat, t: Tables, row: EdgeRow) returns (e: Edge)
    requires Accepted(c) && d < c.domains && HoldsDomain(c, body, d, t) && row in t.relationships
    ensures row == EdgeRowOf(EdgeRecordOf(c, e)) && 1 <= e.from.version <= c.versions
    ensures e.from.domain == d && e.to.domain == d && e.to.version == e.from.version
    ensures FindNode(t.nodes, row.toChunk) == Some(Row(body, e.to))
  {
    hide DomainAddresses;
    hide HoldsVersions;
    hide HoldsCurrent;
    hide FindNode;
    hide IsEdge;
    hide IsCross;
    hide Enumerated;
    hide ChunkOf;
    hide SourceOf;
    assert IsInnerRow(c, d, row);
    e :| IsEdge(c, e) && !IsCross(c, e) && e.from.domain == d && row == EdgeRowOf(EdgeRecordOf(c, e));
    EdgeIsPlaced(c, e);
    CrossLeavesDomain(c, e);
    EndsAreEnumerated(c, e);
    FindsOwnNodes(c, body, d, e.to);
  }

  lemma {:induction false} DecimalHasNoColon(n: nat)
    ensures ':' !in Decimal(n)
  {
    if n >= 10 { DecimalHasNoColon(n / 10); }
  }

  lemma VersionHasNoColon(v: nat)
    ensures ':' !in VersionId(v)
  {
    DecimalHasNoColon(v);
  }

  lemma GeneratedVersionsArePlain(c: Config, d: nat, t: Tables)
    requires Accepted(c) && HoldsVersions(c, d, t.order)
    ensures forall k | k in t.order :: ':' !in k.1
  {
    hide SourceId;
    hide VersionId;
    hide HoldsVersions;
    forall k | k in t.order ensures ':' !in k.1 {
      var u, v := VersionOfKey(c, d, t.order, k);
      VersionHasNoColon(v);
    }
  }

  lemma GeneratedIsMakeable(c: Config, body: Bodies, d: nat, t: Tables)
    requires Accepted(c) && d < c.domains && HoldsDomain(c, body, d, t)
    ensures Makeable(t)
  {
    hide HoldsDomain;
    hide FindNode;
    hide ChunkOf;
    hide SourceOf;
    hide VersionId;
    forall e | e in t.relationships ensures ReaderCommands.FitsOwner(t.nodes, e) {
      var x := InnerEdgeNodes(c, body, d, t, e);
    }
  }

  lemma LastVersionIsLast(c: Config, d: nat, t: Tables, u: NodeType)
    requires Accepted(c) && HoldsVersions(c, d, t.order)
    ensures IsLast(t, (SourceId(d, u), VersionId(c.versions)))
  {
    hide SourceId;
    hide VersionId;
    hide HoldsVersions;
    var key := (SourceId(d, u), VersionId(c.versions));
    LastIsNumbered(c, d, t.order, u);
    forall k | k in t.order && k.0 == key.0 ensures t.order[k] <= t.order[key] {
      var x, v := VersionOfKey(c, d, t.order, k);
    }
  }

  lemma LastIsNumbered(c: Config, d: nat, order: map<SourceVersion, nat>, u: NodeType)
    requires Accepted(c) && HoldsVersions(c, d, order)
    ensures var key := (SourceId(d, u), VersionId(c.versions));
            key in order && order[key] == c.versions - 1
  {
    hide IsVersion;
    hide SourceId;
    hide VersionId;
  }

  lemma GeneratedIsImportable(c: Config, body: Bodies, d: nat, t: Tables)
    requires Accepted(c) && d < c.domains && HoldsDomain(c, body, d, t)
    ensures Importable(t)
  {
    hide FindNode;
    hide ChunkOf;
    hide SourceId;
    hide VersionId;
    hide IsLast;
    hide IsInnerRow;
    hide DomainAddresses;
    hide HoldsVersions;
    hide ReaderCommands.AllVersions;
    forall row | row in ReaderCommands.CurrentVersions(t)
      ensures IsLast(t, (row.source, row.version)) && TargetsAreLast(t, row)
    {
      var u, v := VersionOfKey(c, d, t.order, (row.source, row.version));
      LastVersionIsLast(c, d, t, u);
      CurrentEndsAtLast(c, body, d, t, row, u);
    }
  }

  lemma CurrentEndsAtLast(c: Config, body: Bodies, d: nat, t: Tables, row: ReaderCommands.VersionRow, u: NodeType)
    requires Accepted(c) && d < c.domains && HoldsDomain(c, body, d, t)
    requires row.source == SourceId(d, u) && row.version == VersionId(c.versions)
    ensures TargetsAreLast(t, row)
  {
    hide FindNode;
    hide ChunkOf;
    hide SourceId;
    hide VersionId;
    hide IsLast;
    hide IsInnerRow;
    hide DomainAddresses;
    hide HoldsVersions;
    hide HoldsCurrent;
    forall e | e in t.relationships && e.ownerSource == row.source && e.ownerVersion == row.version
      ensures FindNode(t.nodes, e.toChunk).Some? && IsLast(t, KeyOfRow(FindNode(t.nodes, e.toChunk).value))
    {
      var x := InnerEdgeNodes(c, body, d, t, e);
      VersionIdInjective(x.from.version, c.versions);
      LastVersionIsLast(c, d, t, x.to.nodeType);
    }
  }

  /** The domain takes every access label that was drawn for its nodes, and documents without a
      clearance. */
  predicate Suits(c: Config, body: Bodies, d: nat, profile: Security.DomainProfile)
    requires Accepted(c)
  {
    && !profile.model.ClearanceModel?
    && forall a | a in DomainAddresses(c, d, c.versions) :: body(a).access in profile.allowedAcl
  }

  lemma GeneratedIsAdmitted(c: Config, body: Bodies, d: nat, t: Tables, profile: Security.DomainProfile)
    requires Accepted(c) && d < c.domains && HoldsDomain(c, body, d, t)
    ensures Admitted(t, profile) <==> Suits(c, body, d, profile)
  {
    hide HoldsVersions;
    hide HoldsCurrent;
    hide IsInnerRow;
    hide DomainAddresses;
    hide ChunkOf;
    hide SourceOf;
    hide VersionId;
    var addresses := DomainAddresses(c, d, c.versions);
    assert Security.IngestibleSecurity(profile.model, NO_SECURITY) <==> !profile.model.ClearanceModel?;
    forall i | 0 <= i < |addresses| ensures t.nodes[i] == Row(body, addresses[i]) {}
    if Admitted(t, profile) {
      forall a | a in addresses ensures body(a).access in profile.allowedAcl {
        var i :| 0 <= i < |addresses| && addresses[i] == a;
        assert t.nodes[i] in t.nodes;
      }
      SomeAddress(c, d);
      var i :| 0 <= i < |addresses|;
      assert t.nodes[i] in t.nodes;
    }
  }

  lemma SomeAddress(c: Config, d: nat)
    requires Accepted(c) && d < c.domains
    ensures |DomainAddresses(c, d, c.versions)| > 0
  {
    hide DomainAddresses;
    var a := NodeAddress(d, 1, SERVICE, 1);
    SlotsAreEven(c, d, 1, d, 1);
    DomainMembers(c, d, c.versions, a);
    assert a in DomainAddresses(c, d, c.versions);
  }

  /** A generated dataset has relationships of every version. */
  lemma FirstVersionRelates(c: Config, body: Bodies, d: nat, t: Tables) returns (row: EdgeRow)
    requires Accepted(c) && d < c.domains && HoldsDomain(c, body, d, t)
    ensures row in t.relationships && row.ownerSource == SourceId(d, 0) && row.ownerVersion == VersionId(1)
  {
    hide DomainAddresses;
    hide HoldsVersions;
    hide HoldsCurrent;
    hide SourceId;
    hide VersionId;
    hide ChunkId;
    var e := TemplateEdge(TEMPLATES[0], d, 1, 1);
    SlotsAreEven(c, d, 1, d, 1);
    assert IsInner(c, e, 0);
    assert IsEdge(c, e);
    CrossLeavesDomain(c, e);
    row := EdgeRowOf(EdgeRecordOf(c, e));
    assert IsInnerRow(c, d, row);
  }

  lemma AllRowsAreCurrent(c: Config, body: Bodies, d: nat, t: Tables)
    requires Accepted(c) && d < c.domains && HoldsDomain(c, body, d, t)
    ensures (forall e | e in t.relationships ::
               e.ownerSource in t.current && t.current[e.ownerSource] == e.ownerVersion && (e.ownerSource, e.ownerVersion) in t.order)
            <==> c.versions == 1
  {
    hide DomainAddresses;
    hide IsInnerRow;
    hide SourceId;
    hide VersionId;
    hide ChunkOf;
    hide IsVersion;
    hide FindNode;
    var row := FirstVersionRelates(c, body, d, t);
    if VersionId(1) == VersionId(c.versions) { VersionIdInjective(1, c.versions); }
    if c.versions == 1 {
      forall e | e in t.relationships
        ensures e.ownerSource in t.current && t.current[e.ownerSource] == e.ownerVersion && (e.ownerSource, e.ownerVersion) in t.order
      {
        var x := InnerEdgeNodes(c, body, d, t, e);
      }
    }
  }

  /** A domain of a generated dataset that the reader accepts, imported into a store that has none of
      it: the import completes exactly when the domain takes every label drawn and needs no clearance.
      Then, whatever failures it got past, every source but the deleted one points at its last
      version, every source version and the one deletion are counted, and all relationships are
      published exactly if there is one version. */
  lemma GeneratedImportsExactly(c: Config, body: Bodies, d: nat, scope: Scope, hash: string, profile: Security.DomainProfile,
                                w: DatasetImport.World, fuel: DualStore.Fuel)
    requires Accepted(c) && d < c.domains && (scope.Internal? || !Linked(c, d))
    requires profile.name == DomainName(d) && profile.tenant == TenantId(d, c.tenants)
    ensures var read := Prepared(GeneratedFiles(c, body), profile.name, profile.tenant, scope);
            && read.Ok?
            && var ds := ReaderCommands.DatasetOf(read.value, hash, profile);
               ImportConvergence.Untouched(w, ds) ==>
                 && (DatasetImport.Attempt(w, ds, DualStore.Unlimited).ok <==> Suits(c, body, d, profile))
                 && (DatasetImport.Attempt(w, ds, fuel).ok ==>
                       Suits(c, body, d, profile) && ImportedWell(c, d, profile, DatasetImport.Attempt(w, ds, fuel).world))
  {
    hide DomainName;
    hide TenantId;
    hide Prepared;
    hide GeneratedFiles;
    hide Linked;
    hide ReaderCommands.Sound;
    hide Makeable;
    hide Admitted;
    hide DistinctKeys;
    hide Importable;
    hide Suits;
    hide HoldsDomain;
    hide ReaderCommands.DatasetOf;
    hide DatasetImport.Attempt;
    hide ImportConvergence.Untouched;
    hide ImportedWell;
    ReaderAcceptsGenerated(c, body, d, scope);
    var t := Prepared(GeneratedFiles(c, body), profile.name, profile.tenant, scope).value;
    var ds := ReaderCommands.DatasetOf(t, hash, profile);
    ReaderCommands.PreparedIsSound(GeneratedFiles(c, body), profile.name, profile.tenant, scope);
    GeneratedMeetsConditions(c, body, d, t, profile);
    if ImportConvergence.Untouched(w, ds) {
      ImportCompletesExactly(t, hash, profile, w);
      if DatasetImport.Attempt(w, ds, fuel).ok {
        CompletedIsResumable(t, hash, profile, w, fuel);
        GeneratedImportedWell(c, body, d, t, hash, profile, w, fuel);
      }
    }
  }

  lemma GeneratedMeetsConditions(c: Config, body: Bodies, d: nat, t: Tables, profile: Security.DomainProfile)
    requires Accepted(c) && d < c.domains && HoldsDomain(c, body, d, t)
    ensures DistinctKeys(t) && Makeable(t) && Importable(t)
    ensures Admitted(t, profile) <==> Suits(c, body, d, profile)
  {
    hide Suits;
    hide Admitted;
    hide DistinctKeys;
    hide Makeable;
    hide Importable;
    hide HoldsVersions;
    hide HoldsCurrent;
    hide IsInnerRow;
    hide DomainAddresses;
    hide Rows;
    GeneratedIsMakeable(c, body, d, t);
    GeneratedVersionsArePlain(c, d, t);
    PlainVersionsKeepKeysApart(t);
    GeneratedIsImportable(c, body, d, t);
    GeneratedIsAdmitted(c, body, d, t, profile);
  }

  /** Pointers and counters after the import of a generated domain. */
  ghost predicate ImportedWell(c: Config, d: nat, profile: Security.DomainProfile, after: DatasetImport.World)
    requires Accepted(c)
  {
    && (forall u: NodeType ::
          var s := Records.SourceKey(profile.tenant, profile.name, SourceId(d, u));
          && (s in after.system.db.sources <==> u != CONFIG)
          && (u != CONFIG ==> after.system.db.sources[s].version == VersionId(c.versions)))
    && after.run.Some? && after.run.value.status.Completed?
    && after.run.value.counters.indexed == after.run.value.request.sources
    && after.run.value.counters.deleted == after.run.value.request.deletions == 1
    && after.run.value.counters.published <= after.run.value.request.relationships
    && (after.run.value.counters.published == after.run.value.request.relationships <==> c.versions == 1)
  }

  lemma GeneratedImportedWell(c: Config, body: Bodies, d: nat, t: Tables, hash: string, profile: Security.DomainProfile,
                              w: DatasetImport.World, fuel: DualStore.Fuel)
    requires Accepted(c) && d < c.domains && HoldsDomain(c, body, d, t) && ReaderCommands.Sound(t)
    requires var ds := ReaderCommands.DatasetOf(t, hash, profile);
             ImportConvergence.Untouched(w, ds) && DatasetImport.Attempt(w, ds, fuel).ok
    ensures ImportedWell(c, d, profile, DatasetImport.Attempt(w, ReaderCommands.DatasetOf(t, hash, profile), fuel).world)
  {
    hide SourceId;
    hide VersionId;
    hide ReaderCommands.Sound;
    hide IsLast;
    hide HoldsVersions;
    hide HoldsCurrent;
    hide IsInnerRow;
    hide Rows;
    hide DomainAddresses;
    hide ReaderCommands.DatasetOf;
    hide DatasetImport.Attempt;
    var ds := ReaderCommands.DatasetOf(t, hash, profile);
    ImportedCounters(t, hash, profile, w, fuel);
    AllRowsAreCurrent(c, body, d, t);
    hide ImportConvergence.Untouched;
    forall u: NodeType
      ensures var s := Records.SourceKey(profile.tenant, profile.name, SourceId(d, u));
              var db := DatasetImport.Attempt(w, ds, fuel).world.system.db;
              (s in db.sources <==> u != CONFIG) && (u != CONFIG ==> db.sources[s].version == VersionId(c.versions))
    {
      LastVersionIsLast(c, d, t, u);
      ImportedSources(t, hash, profile, w, fuel, (SourceId(d, u), VersionId(c.versions)));
      if SourceId(d, u) == SourceId(d, CONFIG) { SourceIdInjective(d, u, d, CONFIG); }
    }
  }

  /** A domain that allows the three labels of the generator suits, unless it demands clearances; one
      that allows none never does. */
  lemma AllLabelsSuit(c: Config, body: Bodies, d: nat, profile: Security.DomainProfile)
    requires Accepted(c) && d < c.domains && forall a :: body(a).access in ACL_LABELS
    ensures ACL_LABELS <= profile.allowedAcl ==> (Suits(c, body, d, profile) <==> !profile.model.ClearanceModel?)
    ensures profile.allowedAcl == {} ==> !Suits(c, body, d, profile)
  {
    hide DomainAddresses;
    SomeAddress(c, d);
    var a := DomainAddresses(c, d, c.versions)[0];
    assert a in DomainAddresses(c, d, c.versions);
  }
}
