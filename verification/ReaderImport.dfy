/** Exactly which of the datasets that the reader accepts can be imported, and what a completed import
    of one guarantees.
 */
module ReaderImport {
  import opened Outcomes
  import opened Records
  import opened Sequences
  import opened Ordering
  import opened Identifiers
  import opened DatasetReader
  import opened ReaderProperties
  import opened ReaderCommands
  import opened IngestionStore
  import opened DualStore
  import opened DatasetImport
  import opened ImportResumption
  import opened ImportConvergence
  import opened CompletedImports
  import Security

  // ------------------------------------------------------------------------ four conditions

  /** No two versions share an idempotency key, which joins source and version with a colon. */
  ghost predicate DistinctKeys(t: Tables) {
    forall a, b | a in AllVersions(t) && b in AllVersions(t) && KeyEnd(a) == KeyEnd(b) :: a == b
  }

  function KeyEnd(row: VersionRow): string { row.source + ":" + row.version }

  /** The domain takes the labels and the security metadata of every node. */
  predicate Admitted(t: Tables, profile: Security.DomainProfile) {
    forall row | row in t.nodes :: row.acl <= profile.allowedAcl && Security.IngestibleSecurity(profile.model, row.security)
  }

  /** Every relationship that a version owns fits the version's command. */
  ghost predicate OwnedFit(t: Tables, row: VersionRow) {
    forall e | e in t.relationships && e.ownerSource == row.source && e.ownerVersion == row.version :: FitsOwner(t.nodes, e)
  }

  /** Commands can be made of all current versions. */
  ghost predicate Makeable(t: Tables) { forall row | row in CurrentVersions(t) :: OwnedFit(t, row) }

  // ---------------------------------------------------------------------- a well-formed dataset

  /** Versions without a colon are enough for distinct keys. */
  lemma PlainVersionsKeepKeysApart(t: Tables)
    requires forall k | k in t.order :: ':' !in k.1
    ensures DistinctKeys(t)
  {
    forall a, b | a in AllVersions(t) && b in AllVersions(t) && KeyEnd(a) == KeyEnd(b) ensures a == b {
      LastSeparatorSplits(':', a.source, a.version, b.source, b.version);
    }
  }

  lemma OrderAscends(rows: set<VersionRow>, i: nat, j: nat)
    requires i < j < |InOrder(rows)|
    ensures VersionLess(InOrder(rows)[i], InOrder(rows)[j]) && InOrder(rows)[i] != InOrder(rows)[j]
  {
    VersionOrder();
    SortedAscends(VersionLess, rows, i, j);
  }

  lemma KeyIsKeyEnd(t: Tables, domain: string, tenant: string, a: VersionRow, b: VersionRow, related: bool)
    ensures var c, d := CommandOf(t, domain, tenant, a, related), CommandOf(t, domain, tenant, b, related);
            && (KeyOf(c) == KeyOf(d) <==> KeyEnd(a) == KeyEnd(b))
            && (VersionOf(c) == VersionOf(d) <==> a.source == b.source && a.version == b.version)
  {
    var head := "dataset:" + domain + ":" + tenant + ":";
    var c, d := CommandOf(t, domain, tenant, a, related), CommandOf(t, domain, tenant, b, related);
    assert c.key == head + KeyEnd(a) && d.key == head + KeyEnd(b);
    assert (head + KeyEnd(a))[|head|..] == KeyEnd(a) && (head + KeyEnd(b))[|head|..] == KeyEnd(b);
  }

  /** Rows of different source versions give commands with different keys. */
  lemma CommandsDiffer(t: Tables, domain: string, tenant: string, a: VersionRow, b: VersionRow, related: bool)
    requires DistinctKeys(t) && a in AllVersions(t) && b in AllVersions(t) && a != b
    ensures var c, d := CommandOf(t, domain, tenant, a, related), CommandOf(t, domain, tenant, b, related);
            KeyOf(c) != KeyOf(d) && VersionOf(c) != VersionOf(d)
  {
    KeyIsKeyEnd(t, domain, tenant, a, b, related);
  }

  lemma CurrentIsVersion(t: Tables)
    ensures CurrentVersions(t) <= AllVersions(t)
  {
  }

  lemma RelationIsStaged(t: Tables, hash: string, profile: Security.DomainProfile, row: VersionRow)
    requires row in AllVersions(t)
    ensures StagedAs(DatasetOf(t, hash, profile), CommandOf(t, profile.name, profile.tenant, row, true))
  {
    hide AllVersions;
    hide ChunksOf;
    var rows, ds := InOrder(AllVersions(t)), DatasetOf(t, hash, profile);
    var i :| 0 <= i < |rows| && rows[i] == row;
    assert ds.commands[i] == CommandOf(t, profile.name, profile.tenant, row, false);
  }

  lemma BareOfBare(t: Tables, domain: string, tenant: string, row: VersionRow)
    ensures Bare(CommandOf(t, domain, tenant, row, false)) == CommandOf(t, domain, tenant, row, false)
  {
  }

  lemma StagedCommandsAreWellFormed(t: Tables, hash: string, profile: Security.DomainProfile)
    requires Sound(t)
    ensures forall c | c in DatasetOf(t, hash, profile).commands :: WellFormed(Bare(c))
  {
    hide Sound;
    hide AllVersions;
    hide CommandOf;
    hide InOrder;
    hide WellFormed;
    var ds, rows := DatasetOf(t, hash, profile), InOrder(AllVersions(t));
    forall c | c in ds.commands ensures WellFormed(Bare(c)) {
      var i :| 0 <= i < |rows| && ds.commands[i] == c;
      assert rows[i] in rows;
      CommandsAreWellFormed(t, profile.name, profile.tenant, rows[i]);
      BareOfBare(t, profile.name, profile.tenant, rows[i]);
    }
  }

  /** The reader's staged commands are well formed and distinct, and every relationship command is for
      a version staged with the same chunks. */
  lemma DatasetIsWellFormed(t: Tables, hash: string, profile: Security.DomainProfile)
    requires Sound(t) && DistinctKeys(t)
    ensures WellFormedDataset(DatasetOf(t, hash, profile))
  {
    hide Sound;
    hide DistinctKeys;
    hide AllVersions;
    hide CurrentVersions;
    hide CommandOf;
    hide InOrder;
    hide WellFormed;
    hide StagedAs;
    var ds := DatasetOf(t, hash, profile);
    var rows, current := InOrder(AllVersions(t)), InOrder(CurrentVersions(t));
    CurrentIsVersion(t);
    StagedCommandsAreWellFormed(t, hash, profile);
    forall i, j | 0 <= i < j < |ds.commands|
      ensures KeyOf(ds.commands[i]) != KeyOf(ds.commands[j]) && VersionOf(ds.commands[i]) != VersionOf(ds.commands[j])
    {
      assert rows[i] in rows && rows[j] in rows;
      OrderAscends(AllVersions(t), i, j);
      CommandsDiffer(t, profile.name, profile.tenant, rows[i], rows[j], false);
    }
    forall i, j | 0 <= i < j < |ds.relations| ensures VersionOf(ds.relations[i]) != VersionOf(ds.relations[j]) {
      assert current[i] in current && current[j] in current;
      OrderAscends(CurrentVersions(t), i, j);
      CommandsDiffer(t, profile.name, profile.tenant, current[i], current[j], true);
    }
    forall r | r in ds.relations ensures StagedAs(ds, r) {
      var i :| 0 <= i < |current| && ds.relations[i] == r;
      assert current[i] in current;
      RelationIsStaged(t, hash, profile, current[i]);
    }
  }

  // ------------------------------------------------------------------------- shared keys stop

  /** A key of the tables names the payload of a command. */
  ghost predicate Names(db: Db, c: Command) {
    KeyOf(c) in db.byKey && db.byKey[KeyOf(c)] in db.jobs && db.jobs[db.byKey[KeyOf(c)]].hash == PayloadOf(c)
  }

  lemma IngestedIsNamed(profile: Security.DomainProfile, system: System, c: Command, fuel: Fuel)
    requires Valid(system.db) && WellFormed(c)
    ensures var r := Ingest(profile, system, c, fuel);
            r.ending.Done? || r.ending.Skipped? ==> Names(r.system.db, c)
  {
    hide Valid;
    hide Process;
    hide Stage;
    hide Admits;
    hide JobChunks;
    hide PayloadOf;
    hide Agrees;
    hide OnlyTouches;
    hide Extends;
    if !Exhausted(fuel) && Stage(system.db, c).1.Ok? {
      var staged := Stage(system.db, c);
      StagedJob(system.db, c);
      ApplyKeepsValid(system.db, Staging(c));
      IngestedChunks(system.db, c);
      var chunks := if KeyOf(c) in system.db.byKey then JobChunks(staged.0, staged.1.value) else c.chunks;
      ProcessEffect(System(staged.0, system.index), staged.1.value, chunks, Spend(fuel));
    }
  }

  lemma NamedStays(a: Db, b: Db, c: Command)
    requires Extends(a, b) && Names(a, c)
    ensures Names(b, c)
  {
  }

  /** If the staging loop completes, every key in it names its own command's payload. */
  lemma {:induction false} StagedKeysName(w: World, ds: Dataset, from: nat, n: Counters, fuel: Fuel)
    requires Valid(w.system.db) && forall c | c in ds.commands :: WellFormed(Bare(c))
    ensures var p := StageAll(w, ds, from, n, fuel);
            p.ok ==>
              && Extends(w.system.db, p.world.system.db)
              && forall i :: from <= i < |ds.commands| ==> Names(p.world.system.db, Bare(ds.commands[i]))
    decreases |ds.commands| - from
  {
    hide Valid;
    hide Ingest;
    hide Extends;
    hide Names;
    hide WellFormed;
    hide OnlyTouches;
    hide Agrees;
    if from >= |ds.commands| {
      ExtendsItself(w.system.db);
    } else {
      var c := Bare(ds.commands[from]);
      var r := Ingest(ds.profile, w.system, c, fuel);
      assert ds.commands[from] in ds.commands;
      IngestEffect(ds.profile, w.system, c, fuel);
      IngestedIsNamed(ds.profile, w.system, c, fuel);
      var u := Update(w.(system := r.system), InStaging, n.(indexed := n.indexed + 1), r.fuel);
      if u.ok {
        StagedKeysName(u.world, ds, from + 1, u.counters, u.fuel);
        var p := StageAll(u.world, ds, from + 1, u.counters, u.fuel);
        if p.ok && (r.ending.Done? || r.ending.Skipped?) {
          ExtendsTransitive(w.system.db, r.system.db, p.world.system.db);
          NamedStays(r.system.db, p.world.system.db, c);
        }
      }
    }
  }

  /** Two versions under one key: the second to be staged is refused, so no attempt completes. */
  lemma SharedKeyStops(t: Tables, hash: string, profile: Security.DomainProfile, w: World, fuel: Fuel)
    requires Sound(t) && !DistinctKeys(t) && Valid(w.system.db) && w.run.None?
    ensures !Attempt(w, DatasetOf(t, hash, profile), fuel).ok
  {
    hide Sound;
    hide AllVersions;
    hide CommandOf;
    hide InOrder;
    hide Valid;
    hide StageAll;
    hide RelateAll;
    hide DeleteAll;
    hide Extends;
    hide KeyEnd;
    var ds, rows := DatasetOf(t, hash, profile), InOrder(AllVersions(t));
    StagedCommandsAreWellFormed(t, hash, profile);
    var a, b :| a in AllVersions(t) && b in AllVersions(t) && KeyEnd(a) == KeyEnd(b) && a != b;
    var i :| 0 <= i < |rows| && rows[i] == a;
    var j :| 0 <= j < |rows| && rows[j] == b;
    KeyIsKeyEnd(t, profile.name, profile.tenant, a, b, false);
    BareOfBare(t, profile.name, profile.tenant, a);
    BareOfBare(t, profile.name, profile.tenant, b);
    DifferentRowsDiffer(t, a, b);
    if !Exhausted(fuel) {
      StagedKeysName(Begin(w, ds), ds, 0, ZERO, Spend(fuel));
      var p := StageAll(Begin(w, ds), ds, 0, ZERO, Spend(fuel));
      OneKeyOnePayload(p.world.system.db, Bare(ds.commands[i]), Bare(ds.commands[j]));
    }
  }

  lemma DifferentRowsDiffer(t: Tables, a: VersionRow, b: VersionRow)
    requires a in AllVersions(t) && b in AllVersions(t) && a != b
    ensures (a.source, a.version) != (b.source, b.version)
  {
  }

  lemma OneKeyOnePayload(db: Db, c: Command, d: Command)
    requires KeyOf(c) == KeyOf(d) && VersionOf(c) != VersionOf(d)
    ensures !(Names(db, c) && Names(db, d))
  {
  }

  // --------------------------------------------------------------------- where staging points

  /** No version of the source has a larger number. */
  predicate IsLast(t: Tables, key: SourceVersion) {
    key in t.order && forall k | k in t.order && k.0 == key.0 :: t.order[k] <= t.order[key]
  }

  lemma {:induction false} LargestExists(order: map<SourceVersion, nat>, keys: set<SourceVersion>) returns (key: SourceVersion)
    requires keys != {} && keys <= order.Keys
    ensures key in keys && forall k | k in keys :: order[k] <= order[key]
    decreases |keys|
  {
    var some :| some in keys;
    if keys == {some} {
      key := some;
    } else {
      var rest := LargestExists(order, keys - {some});
      key := if order[some] > order[rest] then some else rest;
      assert keys == (keys - {some}) + {some};
    }
  }

  lemma LastExists(t: Tables, key: SourceVersion) returns (last: SourceVersion)
    requires Sound(t) && key in t.order
    ensures last.0 == key.0 && IsLast(t, last)
    ensures forall k: SourceVersion | k.0 == key.0 :: IsLast(t, k) <==> k == last
  {
    assert key in VersionsOf(t.order, key.0);
    last := LargestExists(t.order, VersionsOf(t.order, key.0));
    assert forall k | k in t.order && k.0 == key.0 :: k in VersionsOf(t.order, key.0);
  }

  lemma {:induction false} LastBeforeIsLast(commands: seq<Command>, n: nat, s: SourceKey, i: nat)
    requires i < n <= |commands| && commands[i].source == s
    requires forall j :: i < j < n ==> commands[j].source != s
    ensures LastBefore(commands, n, s) == Some(i)
  {
    if i < n - 1 { LastBeforeIsLast(commands, n - 1, s, i); }
  }

  /** The last command of a source is for its last version. */
  lemma LastCommand(t: Tables, domain: string, tenant: string, key: SourceVersion) returns (i: nat)
    requires Sound(t) && IsLast(t, key)
    ensures var commands := SourceCommandsOf(t, domain, tenant);
            && i < |commands| && LastBefore(commands, |commands|, SourceKey(tenant, domain, key.0)) == Some(i)
            && commands[i] == CommandOf(t, domain, tenant, VersionRow(key.0, t.order[key], key.1), false)
  {
    hide ChunksOf;
    hide InOrder;
    hide KeysOf;
    var rows, commands := InOrder(AllVersions(t)), SourceCommandsOf(t, domain, tenant);
    var row := VersionRow(key.0, t.order[key], key.1);
    assert row in rows;
    i :| 0 <= i < |rows| && rows[i] == row;
    forall j | i < j < |rows| ensures commands[j].source != SourceKey(tenant, domain, key.0) {
      OrderAscends(AllVersions(t), i, j);
      assert rows[j] in rows;
      NoneAfterLast(t, key, rows[j]);
    }
    LastBeforeIsLast(commands, |commands|, SourceKey(tenant, domain, key.0), i);
  }

  lemma NoneAfterLast(t: Tables, key: SourceVersion, row: VersionRow)
    requires Sound(t) && IsLast(t, key) && row in AllVersions(t) && VersionLess(VersionRow(key.0, t.order[key], key.1), row)
    ensures row.source != key.0
  {
    hide KeysOf;
    StringOrder();
    var k := (row.source, row.version);
    assert k in t.order && t.order[k] == row.number;
  }

  /** Once everything is staged, a source points at its last version and stores its chunks. */
  lemma StagedPointer(t: Tables, hash: string, profile: Security.DomainProfile, start: System, staged: System,
        key: SourceVersion)
    requires Sound(t) && IsLast(t, key)
    requires Ready(start, staged, DatasetOf(t, hash, profile))
    ensures var s := SourceKey(profile.tenant, profile.name, key.0);
            && s in staged.db.sources && staged.db.sources[s].version == key.1
            && VersionKey(s, key.1) in staged.db.versions
            && Elements(staged.db.versions[VersionKey(s, key.1)].listing) == Elements(ChunksOf(t.nodes, key.0, key.1))
  {
    hide ChunksOf;
    hide Sound;
    hide IsLast;
    hide Valid;
    hide IndexHolds;
    hide VersionsKept;
    hide Mixed;
    hide InOrder;
    hide SourceCommandsOf;
    hide LastBefore;
    var commands := SourceCommandsOf(t, profile.name, profile.tenant);
    var s := SourceKey(profile.tenant, profile.name, key.0);
    var i := LastCommand(t, profile.name, profile.tenant, key);
    assert PointsTo(start.db, staged.db, commands, |commands|, s);
    assert JobDone(staged.db, Bare(commands[i]));
    DoneVersionIsStored(staged.db, Bare(commands[i]));
  }

  // ---------------------------------------------------------------------------- publication

  /** The relationships that a version owns end at last versions. */
  ghost predicate TargetsAreLast(t: Tables, row: VersionRow) {
    forall e | e in t.relationships && e.ownerSource == row.source && e.ownerVersion == row.version ::
      FindNode(t.nodes, e.toChunk).Some? && IsLast(t, KeyOfRow(FindNode(t.nodes, e.toChunk).value))
  }

  lemma TargetExistsExactly(t: Tables, hash: string, profile: Security.DomainProfile, start: System, staged: System,
                            owner: SourceKey, e: EdgeRow)
    requires Sound(t) && e in t.relationships && InDomain(profile, owner)
    requires Ready(start, staged, DatasetOf(t, hash, profile))
    ensures FindNode(t.nodes, e.toChunk).Some?
    ensures TargetExists(staged.db, owner, RelationshipOf(e).to) <==> IsLast(t, KeyOfRow(FindNode(t.nodes, e.toChunk).value))
  {
    hide ChunksOf;
    hide IsLast;
    hide Ready;
    hide FindNode;
    hide Chunks;
    hide NoRepeat;
    hide Numbered;
    assert EndsAreRows(t.nodes, e);
    var node := FindNode(t.nodes, e.toChunk).value;
    FindNodeFinds(t.nodes, e.toChunk);
    assert KeyOfRow(node) in KeysOf(t.nodes);
    hide KeysOf;
    var last := LastExists(t, KeyOfRow(node));
    StagedPointer(t, hash, profile, start, staged, last);
    NodeIsChunkOf(t.nodes, e.toChunk, last.0, last.1);
  }

  /** A relationship that fits its command passes the constraints of the table. */
  lemma FittingRowIsAllowed(t: Tables, hash: string, profile: Security.DomainProfile, start: System, staged: System,
                            row: VersionRow, r: Relationship)
    requires Sound(t) && row in AllVersions(t) && Ready(start, staged, DatasetOf(t, hash, profile))
    requires var c := CommandOf(t, profile.name, profile.tenant, row, true); WellFormed(c) && r in c.relationships
    ensures RowAllowed(staged.db, Row(VersionOf(CommandOf(t, profile.name, profile.tenant, row, true)), r))
  {
    hide Sound;
    hide AllVersions;
    hide Ready;
    hide ChunksOf;
    hide RelationshipsOf;
    hide DatasetOf;
    var c := CommandOf(t, profile.name, profile.tenant, row, true);
    RelationIsStaged(t, hash, profile, row);
    PublishesStoredVersion(start, staged, DatasetOf(t, hash, profile), c);
    var x :| x in c.chunks && x.id == r.from.chunk;
    assert x in Elements(c.chunks);
  }

  ghost predicate RowImports(t: Tables, row: VersionRow) {
    OwnedFit(t, row) && IsLast(t, (row.source, row.version)) && TargetsAreLast(t, row)
  }

  lemma RelatesExactly(t: Tables, hash: string, profile: Security.DomainProfile, start: System, staged: System, row: VersionRow)
    requires Sound(t) && row in AllVersions(t)
    requires Ready(start, staged, DatasetOf(t, hash, profile))
    ensures Relates(profile, staged.db, CommandOf(t, profile.name, profile.tenant, row, true)) <==> RowImports(t, row)
  {
    hide ChunksOf;
    hide IsLast;
    hide Ready;
    hide FindNode;
    hide TargetExists;
    hide RowAllowed;
    hide RelationshipsOf;
    hide Sound;
    hide DatasetOf;
    hide WellFormed;
    hide FitsOwner;
    var key := (row.source, row.version);
    var c := CommandOf(t, profile.name, profile.tenant, row, true);
    CommandsAreWellFormed(t, profile.name, profile.tenant, row);
    var last := LastExists(t, key);
    StagedPointer(t, hash, profile, start, staged, last);
    assert c.source in staged.db.sources && staged.db.sources[c.source].version == c.version <==> IsLast(t, key);
    forall r | r in c.relationships
      ensures exists e :: e in t.relationships && e.ownerSource == row.source && e.ownerVersion == row.version && r == RelationshipOf(e)
      ensures WellFormed(c) ==> RowAllowed(staged.db, Row(VersionOf(c), r))
    {
      RelationshipsOfHold(t.relationships, row.source, row.version, r);
      if WellFormed(c) { FittingRowIsAllowed(t, hash, profile, start, staged, row, r); }
    }
    forall e | e in t.relationships && e.ownerSource == row.source && e.ownerVersion == row.version
      ensures RelationshipOf(e) in c.relationships && FindNode(t.nodes, e.toChunk).Some?
      ensures TargetExists(staged.db, c.source, RelationshipOf(e).to) <==>
                IsLast(t, KeyOfRow(FindNode(t.nodes, e.toChunk).value))
    {
      RelationshipsOfHold(t.relationships, row.source, row.version, RelationshipOf(e));
      TargetExistsExactly(t, hash, profile, start, staged, c.source, e);
    }
  }

  /** What the operations must say for an import to go through: current versions are last, and
      their relationships end at last versions. */
  ghost predicate Importable(t: Tables) {
    forall row | row in CurrentVersions(t) :: IsLast(t, (row.source, row.version)) && TargetsAreLast(t, row)
  }

  lemma AllRelateExactly(t: Tables, hash: string, profile: Security.DomainProfile, start: System, staged: System)
    requires Sound(t) && Ready(start, staged, DatasetOf(t, hash, profile))
    ensures RelatesFrom(DatasetOf(t, hash, profile), staged.db, 0) <==> Makeable(t) && Importable(t)
  {
    hide Sound;
    hide Ready;
    hide IsLast;
    hide TargetsAreLast;
    hide OwnedFit;
    hide Relates;
    hide CommandOf;
    hide AllVersions;
    hide CurrentVersions;
    hide InOrder;
    CurrentIsVersion(t);
    var ds, rows := DatasetOf(t, hash, profile), InOrder(CurrentVersions(t));
    forall i | 0 <= i < |rows| ensures Relates(profile, staged.db, ds.relations[i]) <==> RowImports(t, rows[i]) {
      assert rows[i] in rows;
      RelatesExactly(t, hash, profile, start, staged, rows[i]);
    }
    forall row | row in CurrentVersions(t) && RelatesFrom(ds, staged.db, 0) ensures RowImports(t, row) {
      var i :| 0 <= i < |rows| && rows[i] == row;
      assert Relates(profile, staged.db, ds.relations[i]);
    }
    forall i | 0 <= i < |rows| && Makeable(t) && Importable(t) ensures RowImports(t, rows[i]) { assert rows[i] in rows; }
  }

  lemma AdmitsExactly(t: Tables, hash: string, profile: Security.DomainProfile)
    requires Sound(t)
    ensures AdmitsFrom(DatasetOf(t, hash, profile), 0) <==> Admitted(t, profile)
  {
    hide Chunks;
    hide NoRepeat;
    hide Numbered;
    hide ChunksOf;
    hide InOrder;
    hide Security.IngestibleSecurity;
    var ds, rows := DatasetOf(t, hash, profile), InOrder(AllVersions(t));
    if Admitted(t, profile) {
      forall i | 0 <= i < |ds.commands| ensures Admits(profile, ds.commands[i].source, ds.commands[i].chunks) {
        forall x | x in ds.commands[i].chunks ensures x.acl <= profile.allowedAcl && Security.IngestibleSecurity(profile.model, x.security) {
          ChunksOfHold(t.nodes, rows[i].source, rows[i].version, x);
        }
      }
    }
    if AdmitsFrom(ds, 0) {
      forall row | row in t.nodes ensures row.acl <= profile.allowedAcl && Security.IngestibleSecurity(profile.model, row.security) {
        assert KeyOfRow(row) in KeysOf(t.nodes);
        var v := VersionRow(row.source, t.order[KeyOfRow(row)], row.version);
        assert v in AllVersions(t);
        var i :| 0 <= i < |rows| && rows[i] == v;
        ChunksOfHold(t.nodes, row.source, row.version, ChunkOfRow(row));
        assert Admits(profile, ds.commands[i].source, ds.commands[i].chunks);
      }
    }
  }

  /** An import of what the reader accepted, into a store that has none of it, completes exactly when
      keys are distinct, the domain takes every node, every current version's command can be made,
      current versions are last, and their relationships end at last versions. */
  lemma ImportCompletesExactly(t: Tables, hash: string, profile: Security.DomainProfile, w: World)
    requires Sound(t) && Untouched(w, DatasetOf(t, hash, profile))
    ensures Attempt(w, DatasetOf(t, hash, profile), Unlimited).ok <==>
              DistinctKeys(t) && Admitted(t, profile) && Makeable(t) && Importable(t)
  {
    hide Sound;
    hide DistinctKeys;
    hide Admitted;
    hide Makeable;
    hide Importable;
    hide DatasetOf;
    hide WellFormedDataset;
    hide Resumable;
    hide Attempt;
    hide RelatesFrom;
    hide AdmitsFrom;
    hide Ready;
    hide Absent;
    hide Valid;
    var ds := DatasetOf(t, hash, profile);
    if DistinctKeys(t) {
      DatasetIsWellFormed(t, hash, profile);
      UntouchedIsResumable(w, ds);
      var staged, published := CleanAttempt(w.system, w, ds, 0);
      AdmitsExactly(t, hash, profile);
      if AdmitsFrom(ds, 0) { AllRelateExactly(t, hash, profile, w.system, staged); }
    } else {
      SharedKeyStops(t, hash, profile, w, Unlimited);
    }
  }

  // ----------------------------------------------------------------------- after completing

  /** A completed import, whatever failures it got past, began like any other. */
  lemma CompletedIsResumable(t: Tables, hash: string, profile: Security.DomainProfile, w: World, fuel: Fuel)
    requires Sound(t) && Untouched(w, DatasetOf(t, hash, profile)) && Attempt(w, DatasetOf(t, hash, profile), fuel).ok
    ensures var ds := DatasetOf(t, hash, profile);
            && WellFormedDataset(ds) && Resumable(w.system, w, ds, 0)
            && Attempt(w, ds, Unlimited) == Attempt(w, ds, fuel)
  {
    hide Sound;
    hide DistinctKeys;
    hide DatasetOf;
    hide WellFormedDataset;
    hide Resumable;
    hide Attempt;
    hide Absent;
    hide Valid;
    if !DistinctKeys(t) { SharedKeyStops(t, hash, profile, w, fuel); }
    DatasetIsWellFormed(t, hash, profile);
    UntouchedIsResumable(w, DatasetOf(t, hash, profile));
    CompletedIsClean(w, DatasetOf(t, hash, profile), fuel);
  }

  /** After the import every source that was not deleted points at its last version. */
  lemma ImportedSources(t: Tables, hash: string, profile: Security.DomainProfile, w: World, fuel: Fuel, key: SourceVersion)
    requires Sound(t) && Untouched(w, DatasetOf(t, hash, profile))
    requires Attempt(w, DatasetOf(t, hash, profile), fuel).ok && IsLast(t, key)
    ensures var db := Attempt(w, DatasetOf(t, hash, profile), fuel).world.system.db;
            var s := SourceKey(profile.tenant, profile.name, key.0);
            (s in db.sources <==> key.0 !in t.deletions) && (s in db.sources ==> db.sources[s].version == key.1)
  {
    hide Sound;
    hide Untouched;
    hide WellFormedDataset;
    hide Resumable;
    hide Attempt;
    hide IsLast;
    hide Ready;
    hide SeenOf;
    hide Purged;
    hide SourceCommandsOf;
    hide RelationshipCommandsOf;
    hide RelatesFrom;
    hide AdmitsFrom;
    var ds, s := DatasetOf(t, hash, profile), SourceKey(profile.tenant, profile.name, key.0);
    CompletedIsResumable(t, hash, profile, w, fuel);
    var staged, published := CleanAttempt(w.system, w, ds, 0);
    StagedPointer(t, hash, profile, w.system, published, key);
    PurgedPointer(Attempt(w, ds, Unlimited).world.system, published, Elements(ds.deletions), s);
    DeletionNames(t, hash, profile, key.0);
  }

  /** Every source of prepared tables has a relationship command. */
  lemma PreparedSourcesPublish(t: Tables, hash: string, profile: Security.DomainProfile)
    requires Settled(t)
    ensures EverySourcePublishes(DatasetOf(t, hash, profile))
  {
    hide CommandOf;
    var ds, rows, current := DatasetOf(t, hash, profile), InOrder(AllVersions(t)), InOrder(CurrentVersions(t));
    forall c | c in ds.commands ensures exists j :: 0 <= j < |ds.relations| && ds.relations[j].source == c.source {
      var i :| 0 <= i < |rows| && ds.commands[i] == c;
      assert rows[i] in rows;
      var key := (rows[i].source, t.current[rows[i].source]);
      var row := VersionRow(key.0, t.order[key], key.1);
      assert row in CurrentVersions(t);
      var j :| 0 <= j < |current| && current[j] == row;
      CommandSource(t, profile, rows[i], false);
      CommandSource(t, profile, row, true);
      assert ds.relations[j].source == c.source;
    }
  }

  lemma CommandSource(t: Tables, profile: Security.DomainProfile, row: VersionRow, related: bool)
    ensures CommandOf(t, profile.name, profile.tenant, row, related).source == SourceKey(profile.tenant, profile.name, row.source)
  {
  }

  /** After a completed import of prepared tables no active relationship of an imported source has a
      missing end. */
  lemma PreparedLeavesNoDangling(t: Tables, hash: string, profile: Security.DomainProfile, w: World, fuel: Fuel, row: Row)
    requires Sound(t) && Settled(t) && Untouched(w, DatasetOf(t, hash, profile))
    requires Attempt(w, DatasetOf(t, hash, profile), fuel).ok
    requires var db := Attempt(w, DatasetOf(t, hash, profile), fuel).world.system.db;
             row in db.relationships && ActiveRow(db, row) && Imported(DatasetOf(t, hash, profile), row.owner.source)
    ensures EndsExist(Attempt(w, DatasetOf(t, hash, profile), fuel).world.system.db, row)
  {
    hide Sound;
    hide Settled;
    hide Untouched;
    hide DatasetOf;
    hide WellFormedDataset;
    hide Resumable;
    hide Attempt;
    hide EverySourcePublishes;
    hide Imported;
    hide EndsExist;
    CompletedIsResumable(t, hash, profile, w, fuel);
    PreparedSourcesPublish(t, hash, profile);
    NoDanglingRelationship(w.system, w, DatasetOf(t, hash, profile), 0, fuel, row);
  }

  // ------------------------------------------------------------------------------- counters

  /** How many relationships belong to some versions. */
  function CountOwned(rows: seq<EdgeRow>, owners: set<SourceVersion>): nat {
    if rows == [] then 0
    else (if (rows[0].ownerSource, rows[0].ownerVersion) in owners then 1 else 0) + CountOwned(rows[1..], owners)
  }

  lemma {:induction false} CountOneMore(rows: seq<EdgeRow>, owners: set<SourceVersion>, key: SourceVersion)
    requires key !in owners
    ensures CountOwned(rows, owners + {key}) == CountOwned(rows, owners) + |RelationshipsOf(rows, key.0, key.1)|
  {
    if rows != [] { CountOneMore(rows[1..], owners, key); }
  }

  lemma {:induction false} CountNone(rows: seq<EdgeRow>)
    ensures CountOwned(rows, {}) == 0
  {
    if rows != [] { CountNone(rows[1..]); }
  }

  lemma {:induction false} CountAtMost(rows: seq<EdgeRow>, owners: set<SourceVersion>)
    ensures CountOwned(rows, owners) <= |rows|
    ensures CountOwned(rows, owners) == |rows| <==> forall e | e in rows :: (e.ownerSource, e.ownerVersion) in owners
  {
    if rows != [] { CountAtMost(rows[1..], owners); }
  }

  function OwnersFrom(rows: seq<VersionRow>, from: nat): set<SourceVersion>
    requires from <= |rows|
  {
    set i | from <= i < |rows| :: (rows[i].source, rows[i].version)
  }

  lemma {:induction false} PublishedFrom(t: Tables, domain: string, tenant: string, rows: seq<VersionRow>, from: nat)
    requires from <= |rows|
    requires forall i, j :: 0 <= i < j < |rows| ==> (rows[i].source, rows[i].version) != (rows[j].source, rows[j].version)
    ensures RelationshipCount(CommandsOf(t, domain, tenant, rows, true), from) == CountOwned(t.relationships, OwnersFrom(rows, from))
    decreases |rows| - from
  {
    hide RelationshipsOf;
    hide CountOwned;
    if from == |rows| {
      assert OwnersFrom(rows, from) == {};
      CountNone(t.relationships);
    } else {
      var key := (rows[from].source, rows[from].version);
      PublishedFrom(t, domain, tenant, rows, from + 1);
      assert OwnersFrom(rows, from) == OwnersFrom(rows, from + 1) + {key};
      CountOneMore(t.relationships, OwnersFrom(rows, from + 1), key);
    }
  }

  lemma {:induction false} SortedSize<T(!new)>(less: (T, T) -> bool, s: set<T>)
    requires StrictTotal(less)
    ensures |Sorted(less, s)| == |s|
    decreases |s|
  {
    if s != {} { SortedSize(less, s - {Least(less, s)}); }
  }

  lemma {:induction false} VersionsCount(order: map<SourceVersion, nat>)
    ensures |set k | k in order :: VersionRow(k.0, order[k], k.1)| == |order|
    decreases |order|
  {
    var rows := set k | k in order :: VersionRow(k.0, order[k], k.1);
    if order == map[] {
      assert rows == {};
    } else {
      var key :| key in order;
      var rest := order - {key};
      VersionsCount(rest);
      var row := VersionRow(key.0, order[key], key.1);
      assert order == rest[key := order[key]];
      assert |order| == |order.Keys| && |rest| == |rest.Keys| && order.Keys == rest.Keys + {key};
      assert rows == (set k | k in rest :: VersionRow(k.0, rest[k], k.1)) + {row};
    }
  }

  /** The counters of a completed import against the totals that the reader reported: sources and
      deletions are met exactly, relationships are never exceeded, and met exactly when every one of
      them belongs to a current version. */
  lemma ImportedCounters(t: Tables, hash: string, profile: Security.DomainProfile, w: World, fuel: Fuel)
    requires w.run.None? && Attempt(w, DatasetOf(t, hash, profile), fuel).ok
    ensures var run := Attempt(w, DatasetOf(t, hash, profile), fuel).world.run;
            && run.Some? && run.value.status.Completed? && run.value.request == RequestOf(t, profile, hash)
            && run.value.counters.indexed == run.value.request.sources
            && run.value.counters.deleted == run.value.request.deletions
            && run.value.counters.published <= run.value.request.relationships
            && (run.value.counters.published == run.value.request.relationships <==>
                  forall e | e in t.relationships :: e.ownerSource in t.current && t.current[e.ownerSource] == e.ownerVersion
                                                     && (e.ownerSource, e.ownerVersion) in t.order)
  {
    hide Attempt;
    hide RelationshipCount;
    hide CountOwned;
    hide InOrder;
    hide CommandOf;
    var ds, rows := DatasetOf(t, hash, profile), InOrder(CurrentVersions(t));
    CompletedCounters(w, ds, fuel);
    InOrderSize(AllVersions(t));
    VersionsCount(t.order);
    StringOrder();
    SortedSize(StringLess, t.deletions);
    forall i, j | 0 <= i < j < |rows| ensures (rows[i].source, rows[i].version) != (rows[j].source, rows[j].version) {
      assert rows[i] in rows && rows[j] in rows;
      OrderAscends(CurrentVersions(t), i, j);
      CurrentIsVersion(t);
      DifferentRowsDiffer(t, rows[i], rows[j]);
    }
    PublishedFrom(t, profile.name, profile.tenant, rows, 0);
    CountAtMost(t.relationships, OwnersFrom(rows, 0));
    forall e | e in t.relationships
      ensures (e.ownerSource, e.ownerVersion) in OwnersFrom(rows, 0) <==>
                e.ownerSource in t.current && t.current[e.ownerSource] == e.ownerVersion && (e.ownerSource, e.ownerVersion) in t.order
    {
      OwnerIsCurrent(t, (e.ownerSource, e.ownerVersion));
    }
  }

  lemma InOrderSize(rows: set<VersionRow>)
    ensures |InOrder(rows)| == |rows|
  {
    VersionOrder();
    SortedSize(VersionLess, rows);
  }

  lemma OwnerIsCurrent(t: Tables, key: SourceVersion)
    ensures key in OwnersFrom(InOrder(CurrentVersions(t)), 0) <==>
              key.0 in t.current && t.current[key.0] == key.1 && key in t.order
  {
    hide InOrder;
    var rows := InOrder(CurrentVersions(t));
    if key.0 in t.current && t.current[key.0] == key.1 && key in t.order {
      var row := VersionRow(key.0, t.order[key], key.1);
      assert row in CurrentVersions(t);
      var i :| 0 <= i < |rows| && rows[i] == row;
      assert (rows[i].source, rows[i].version) in OwnersFrom(rows, 0);
    }
    if key in OwnersFrom(rows, 0) {
      var i :| 0 <= i < |rows| && key == (rows[i].source, rows[i].version);
      assert rows[i] in rows;
    }
  }

  lemma DeletionNames(t: Tables, hash: string, profile: Security.DomainProfile, source: string)
    ensures SourceKey(profile.tenant, profile.name, source) in Elements(DatasetOf(t, hash, profile).deletions) <==>
              source in t.deletions
  {
    StringOrder();
    var names, deletions := Sorted(StringLess, t.deletions), DatasetOf(t, hash, profile).deletions;
    if source in t.deletions {
      var i :| 0 <= i < |names| && names[i] == source;
      assert deletions[i] == SourceKey(profile.tenant, profile.name, source);
    }
    if SourceKey(profile.tenant, profile.name, source) in deletions {
      var i :| 0 <= i < |deletions| && deletions[i] == SourceKey(profile.tenant, profile.name, source);
      assert names[i] in names;
    }
  }

  lemma PurgedPointer(after: System, before: System, gone: set<SourceKey>, s: SourceKey)
    requires SeenOf(after) == Purged(SeenOf(before), gone) && s in before.db.sources
    ensures s in after.db.sources <==> s !in gone
    ensures s in after.db.sources ==> after.db.sources[s].version == before.db.sources[s].version
  {
    assert s in after.db.sources <==> s in SeenOf(after).current;
    if s in after.db.sources { assert SeenOf(after).current[s] == SeenOf(before).current[s]; }
  }
}
