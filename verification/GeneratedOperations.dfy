/** The life of every generated source, told by the operations: added, replaced version by version,
    and the configuration deleted at the end.
 */
module GeneratedOperations {
  import opened Outcomes
  import opened DatasetReader
  import opened GeneratedDataset
  import opened Generator
  import opened Identifiers

  /** The operations on one source, in the order of the file. */
  function On(rs: seq<OperationRecord>, source: string): seq<OperationRecord> {
    if rs == [] then [] else (if rs[0].source == source then [rs[0]] else []) + On(rs[1..], source)
  }

  lemma {:induction false} OnAppend(a: seq<OperationRecord>, b: seq<OperationRecord>, source: string)
    ensures On(a + b, source) == On(a, source) + On(b, source)
  {
    if a == [] {
      assert a + b == b;
    } else {
      assert (a + b)[1..] == a[1..] + b;
      OnAppend(a[1..], b, source);
      var own, mine, others := if a[0].source == source then [a[0]] else [], On(a[1..], source), On(b, source);
      assert own + (mine + others) == own + mine + others;
    }
  }

  lemma {:induction false} OnUniform(rs: seq<OperationRecord>, source: string, other: string)
    requires forall r | r in rs :: r.source == other
    ensures On(rs, source) == if source == other then rs else []
  {
    if rs != [] {
      assert rs[0] in rs;
      OnUniform(rs[1..], source, other);
    }
  }

  lemma OnOneSource(c: Config, d: nat, u: NodeType, e: nat, t: NodeType)
    requires Accepted(c)
    ensures On(SourceOperations(c, d, u, c.versions), SourceId(e, t)) ==
            if d == e && t == u then SourceOperations(c, d, u, c.versions) else []
    ensures On([Deletion(c, d)], SourceId(e, t)) == if d == e && t == CONFIG then [Deletion(c, d)] else []
  {
    hide SourceId;
    OnUniform(SourceOperations(c, d, u, c.versions), SourceId(e, t), SourceId(d, u));
    OnUniform([Deletion(c, d)], SourceId(e, t), SourceId(d, CONFIG));
    if SourceId(e, t) == SourceId(d, u) { SourceIdInjective(e, t, d, u); }
    if SourceId(e, t) == SourceId(d, CONFIG) { SourceIdInjective(e, t, d, CONFIG); }
  }

  lemma {:induction false} OnTypes(c: Config, d: nat, types: nat, e: nat, t: NodeType)
    requires Accepted(c) && types <= 10
    ensures On(TypeOperations(c, d, types), SourceId(e, t)) ==
            if d == e && t < types then SourceOperations(c, d, t, c.versions) else []
  {
    hide SourceId;
    hide SourceOperations;
    if types > 0 {
      OnTypes(c, d, types - 1, e, t);
      OnAppend(TypeOperations(c, d, types - 1), SourceOperations(c, d, types - 1, c.versions), SourceId(e, t));
      OnOneSource(c, d, types - 1, e, t);
      hide On;
    }
  }

  lemma OnOneDomain(c: Config, d: nat, e: nat, t: NodeType)
    requires Accepted(c)
    ensures On(TypeOperations(c, d, 10) + [Deletion(c, d)], SourceId(e, t)) ==
            if d == e then SourceOperations(c, d, t, c.versions) + (if t == CONFIG then [Deletion(c, d)] else []) else []
  {
    hide SourceId;
    hide SourceOperations;
    hide TypeOperations;
    hide Deletion;
    hide On;
    OnTypes(c, d, 10, e, t);
    OnAppend(TypeOperations(c, d, 10), [Deletion(c, d)], SourceId(e, t));
    OnOneSource(c, d, t, e, t);
  }

  lemma {:induction false} OnDomains(c: Config, domains: nat, e: nat, t: NodeType)
    requires Accepted(c)
    ensures On(Operations(c, domains), SourceId(e, t)) ==
            if e < domains then SourceOperations(c, e, t, c.versions) + (if t == CONFIG then [Deletion(c, e)] else []) else []
  {
    hide SourceId;
    hide SourceOperations;
    hide TypeOperations;
    hide Deletion;
    if domains > 0 {
      var d := domains - 1;
      OnDomains(c, d, e, t);
      OnOneDomain(c, d, e, t);
      OnAppend(Operations(c, d), TypeOperations(c, d, 10) + [Deletion(c, d)], SourceId(e, t));
      hide On;
    }
  }

  /** Each source is added in its first version and replaced by every later one in turn, and the
      configuration is deleted at the end; nothing else happens to it. */
  lemma LifeOfSource(c: Config, d: nat, t: NodeType)
    requires Accepted(c) && d < c.domains
    ensures var life := On(Operations(c, c.domains), SourceId(d, t));
            && |life| == c.versions + (if t == CONFIG then 1 else 0)
            && (forall r | r in life :: r.domain == DomainName(d) && r.tenant == TenantId(d, c.tenants))
            && life[0].operation == AddSource("v1")
            && (forall v | 2 <= v <= c.versions :: life[v - 1].operation == ReplaceSource(VersionId(v)))
            && (t == CONFIG ==> life[c.versions].operation == DropSource)
  {
    hide SourceId;
    hide DomainName;
    hide TenantId;
    hide Operations;
    hide On;
    OnDomains(c, c.domains, d, t);
  }

  lemma SomeVersions(c: Config)
    requires Accepted(c)
    ensures c.versions > 0 && c.domains > 0
  {
  }

  lemma {:induction false} TypeOperationCount(c: Config, d: nat, types: nat)
    requires Accepted(c) && types <= 10 && c.versions > 0
    ensures |TypeOperations(c, d, types)| == types * c.versions
  {
    hide Accepted;
    hide SourceOperation;
    if types > 0 {
      TypeOperationCount(c, d, types - 1);
      Distribute(types - 1, c.versions, 0);
    }
  }

  lemma OneDomainMore(c: Config, domains: nat)
    requires Accepted(c) && domains > 0 && c.versions > 0
    ensures |Operations(c, domains)| == |Operations(c, domains - 1)| + 10 * c.versions + 1
  {
    hide Accepted;
    hide TypeOperations;
    hide Deletion;
    TypeOperationCount(c, domains - 1, 10);
    var before, types := Operations(c, domains - 1), TypeOperations(c, domains - 1, 10);
    assert Operations(c, domains) == before + (types + [Deletion(c, domains - 1)]);
    hide Operations;
    assert |before + (types + [Deletion(c, domains - 1)])| == |before| + |types| + 1;
  }

  lemma {:induction false} CountWith(c: Config, domains: nat, each: nat)
    requires Accepted(c) && c.versions > 0 && each == 10 * c.versions + 1
    ensures |Operations(c, domains)| == domains * each
  {
    hide TypeOperations;
    hide Deletion;
    if domains == 0 {
      assert Operations(c, domains) == [];
    } else {
      CountWith(c, domains - 1, each);
      OneDomainMore(c, domains);
      hide Operations;
      hide Accepted;
      Distribute(domains - 1, each, 0);
    }
  }

  /** And there are no operations but these. */
  lemma OperationCount(c: Config)
    requires Accepted(c)
    ensures |Operations(c, c.domains)| == c.domains * (10 * c.versions + 1)
  {
    hide Operations;
    hide TypeOperations;
    SomeVersions(c);
    CountWith(c, c.domains, 10 * c.versions + 1);
  }
}
