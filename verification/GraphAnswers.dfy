/** What an expansion answers, read off the tables and the request alone: trails from seed entries
    over current rows through shown chunks, and for every node the best of its shortest trails.
 */
module GraphAnswers {
  import opened Outcomes
  import opened Graph
  import opened Ordering
  import opened Records
  import Security

  datatype Leg = Leg(kind: string, node: Node)

  /** A trail starts at an entry of the seed list. */
  datatype Trail = Trail(start: nat, legs: seq<Leg>)

  /** The entry is the last one for its node; earlier ones are forgotten. */
  predicate LastEntry(q: Request, i: nat) {
    i < |q.seeds| && forall j | i < j < |q.seeds| :: q.seeds[j].node != q.seeds[i].node
  }

  predicate IsSeed(q: Request, n: Node) { exists i :: 0 <= i < |q.seeds| && q.seeds[i].node == n }

  /** A row of a current version, of a wanted kind, joins the nodes in the direction asked for. */
  ghost predicate Follows(st: Store, q: Request, m: Node, leg: Leg) {
    exists row :: row in st.relationships
      && row.owner.source.tenant == q.scope.tenant && row.owner.source.domain == q.scope.domain
      && row.owner.source in st.current && st.current[row.owner.source] == row.owner.version
      && row.relationship.kind == leg.kind && (q.kinds == {} || leg.kind in q.kinds)
      && match q.direction
         case Outgoing => row.relationship.from == m && row.relationship.to == leg.node
         case Incoming => row.relationship.from == leg.node && row.relationship.to == m
         case Both =>
           || (row.relationship.from == m && row.relationship.to == leg.node)
           || (row.relationship.from == leg.node && row.relationship.to == m)
  }

  /** The node is a chunk of its source's current version, in scope, and passes the clause. */
  ghost predicate Shows(st: Store, q: Request, n: Node) {
    exists row :: row in st.chunks && row.node == n
      && SourceKey(q.scope.tenant, q.scope.domain, n.source) in st.current
      && st.current[SourceKey(q.scope.tenant, q.scope.domain, n.source)] == row.version
      && Security.SqlFilter(q.scope, row.chunk) == Ok(true)
  }

  function NodeAt(q: Request, t: Trail, k: nat): Node
    requires t.start < |q.seeds| && k <= |t.legs|
  {
    if k == 0 then q.seeds[t.start].node else t.legs[k - 1].node
  }

  ghost predicate IsTrail(st: Store, q: Request, t: Trail) {
    && LastEntry(q, t.start)
    && forall k | 0 <= k < |t.legs| :: Follows(st, q, NodeAt(q, t, k), t.legs[k]) && Shows(st, q, t.legs[k].node)
  }

  function Labels(t: Trail): seq<string> { seq(|t.legs|, i requires 0 <= i < |t.legs| => t.legs[i].kind) }

  ghost predicate Arrives(st: Store, q: Request, t: Trail, n: Node) { IsTrail(st, q, t) && NodeAt(q, t, |t.legs|) == n }

  /** Shorter, or of a better seed, or of the same score and before in the order of labels. */
  predicate Beats(q: Request, a: Trail, b: Trail)
    requires a.start < |q.seeds| && b.start < |q.seeds|
  {
    var x, y := q.seeds[a.start].score, q.seeds[b.start].score;
    |a.legs| < |b.legs| || (|a.legs| == |b.legs| && (x > y || (x == y && PathLess(Labels(a), Labels(b)))))
  }

  /** The hit tells of this trail, and no trail to its node is better. */
  ghost predicate Tells(st: Store, q: Request, h: Hit, t: Trail) {
    && Arrives(st, q, t, h.node) && h.depth == |t.legs| && h.path == Labels(t)
    && h.score == q.seeds[t.start].score / (h.depth as real + 1.0)
    && forall u | Arrives(st, q, u, h.node) :: !Beats(q, u, t)
  }

  ghost predicate Answers(st: Store, q: Request, h: Hit) { exists t :: Tells(st, q, h, t) }

  /** Some trail within the depth limit ends in the node, which is no seed. */
  ghost predicate Found(st: Store, q: Request, n: Node) {
    !IsSeed(q, n) && exists t :: Arrives(st, q, t, n) && |t.legs| <= q.maxDepth
  }

  // ------------------------------------------------------------------- entries and seed states

  /** The state of a seed node is the score of the last entry that names it. */
  lemma {:induction false} SeedKeepsLastScore(seeds: seq<Seed>, i: nat)
    requires i < |seeds| && forall j | i < j < |seeds| :: seeds[j].node != seeds[i].node
    ensures seeds[i].node in SeedStates(seeds) && SeedStates(seeds)[seeds[i].node] == State(seeds[i].score, [])
  {
    if i < |seeds| - 1 { SeedKeepsLastScore(seeds[..|seeds| - 1], i); }
  }

  /** Every node with an entry has a last one. */
  lemma {:induction false} EntryOf(q: Request, k: nat, n: Node) returns (i: nat)
    requires k <= |q.seeds| && exists j :: 0 <= j < k && q.seeds[j].node == n
    requires forall j | k <= j < |q.seeds| :: q.seeds[j].node != n
    ensures LastEntry(q, i) && q.seeds[i].node == n
  {
    if q.seeds[k - 1].node == n { i := k - 1; } else { i := EntryOf(q, k - 1, n); }
  }

  lemma SeedsAreEntries(q: Request, n: Node)
    ensures n in SeedStates(q.seeds) <==> IsSeed(q, n)
  {
    SeedStatesStartEmpty(q.seeds);
    if IsSeed(q, n) {
      var i :| 0 <= i < |q.seeds| && q.seeds[i].node == n;
      assert q.seeds[i] in q.seeds;
    }
  }

  // -------------------------------------------------------------------------- trails and walks

  lemma FollowsIsJoined(st: Store, q: Request, m: Node, leg: Leg)
    ensures Follows(st, q, m, leg) <==> Joined(ViewOf(st, q), m, leg.kind, leg.node)
  {
    if Follows(st, q, m, leg) {
      var row :| row in st.relationships
        && row.owner.source.tenant == q.scope.tenant && row.owner.source.domain == q.scope.domain
        && row.owner.source in st.current && st.current[row.owner.source] == row.owner.version
        && row.relationship.kind == leg.kind && (q.kinds == {} || leg.kind in q.kinds)
        && match q.direction
           case Outgoing => row.relationship.from == m && row.relationship.to == leg.node
           case Incoming => row.relationship.from == leg.node && row.relationship.to == m
           case Both =>
             || (row.relationship.from == m && row.relationship.to == leg.node)
             || (row.relationship.from == leg.node && row.relationship.to == m);
      assert row in ViewOf(st, q).rows && Leads(q.direction, row, m, leg.node);
    }
  }

  lemma ShowsIsVisible(st: Store, q: Request, n: Node)
    ensures Shows(st, q, n) <==> n in ViewOf(st, q).visible
  {
    if n in ViewOf(st, q).visible {
      var row :| row in st.chunks && VisibleRow(st, q, row) && row.node == n;
      assert row.chunk.tenant == q.scope.tenant && row.chunk.domain == q.scope.domain;
    }
  }

  lemma {:induction false} TrailIsWalk(st: Store, q: Request, t: Trail) returns (w: Walk)
    requires IsTrail(st, q, t)
    ensures IsWalk(ViewOf(st, q), w) && End(w) == NodeAt(q, t, |t.legs|) && Length(w) == |t.legs|
    ensures Kinds(w) == Labels(t) && Origin(w) == q.seeds[t.start].node
    decreases |t.legs|
  {
    hide Follows;
    hide Shows;
    hide SeedStates;
    if t.legs == [] {
      SeedKeepsLastScore(q.seeds, t.start);
      w := Start(q.seeds[t.start].node);
    } else {
      var k := |t.legs| - 1;
      var before := Trail(t.start, t.legs[..k]);
      assert forall j | 0 <= j <= k :: NodeAt(q, before, j) == NodeAt(q, t, j);
      var prev := TrailIsWalk(st, q, before);
      FollowsIsJoined(st, q, NodeAt(q, t, k), t.legs[k]);
      ShowsIsVisible(st, q, t.legs[k].node);
      hide ViewOf;
      w := Hop(prev, t.legs[k].kind, t.legs[k].node);
      assert Labels(t) == Labels(before) + [t.legs[k].kind];
    }
  }

  lemma {:induction false} WalkIsTrail(st: Store, q: Request, w: Walk) returns (t: Trail)
    requires IsWalk(ViewOf(st, q), w)
    ensures Arrives(st, q, t, End(w)) && |t.legs| == Length(w) && Labels(t) == Kinds(w)
    ensures t.start < |q.seeds| && q.seeds[t.start].node == Origin(w)
  {
    hide Follows;
    hide Shows;
    match w
    case Start(n) =>
      SeedsAreEntries(q, n);
      var i := EntryOf(q, |q.seeds|, n);
      t := Trail(i, []);
    case Hop(prev, kind, n) =>
      var before := WalkIsTrail(st, q, prev);
      var k := |before.legs|;
      t := Trail(before.start, before.legs + [Leg(kind, n)]);
      FollowsIsJoined(st, q, End(prev), Leg(kind, n));
      ShowsIsVisible(st, q, n);
      hide ViewOf;
      forall j | 0 <= j < |t.legs|
        ensures Follows(st, q, NodeAt(q, t, j), t.legs[j]) && Shows(st, q, t.legs[j].node)
      {
        assert NodeAt(q, t, j) == NodeAt(q, before, j);
        if j < k { assert t.legs[j] == before.legs[j]; }
      }
      assert Labels(t) == Labels(before) + [kind];
  }

  /** The score that a trail starts with is the one its walk is weighed with. */
  lemma WeightOf(st: Store, q: Request, t: Trail, w: Walk)
    requires IsTrail(st, q, t) && IsWalk(ViewOf(st, q), w) && Origin(w) == q.seeds[t.start].node && Kinds(w) == Labels(t)
    ensures StateOf(ViewOf(st, q), w) == State(q.seeds[t.start].score, Labels(t))
    ensures Origin(w) in SeedStates(q.seeds) && SeedStates(q.seeds)[Origin(w)].score == q.seeds[t.start].score
  {
    SeedStatesStartEmpty(q.seeds);
    SeedKeepsLastScore(q.seeds, t.start);
    StateOfMeaning(ViewOf(st, q), w);
  }

  // ------------------------------------------------------------------------------- the answers

  lemma HitTells(st: Store, q: Request, h: Hit)
    requires h in Full(ViewOf(st, q), q.maxDepth)
    ensures Answers(st, q, h) && Found(st, q, h.node) && 1 <= h.depth <= q.maxDepth
  {
    hide Full;
    hide IsTrail;
    hide StateLess;
    hide PathLess;
    hide IsSeed;
    hide LastEntry;
    var g := ViewOf(st, q);
    SeedStatesStartEmpty(q.seeds);
    ExpansionIsOptimal(g, q.maxDepth, h);
    SeedsAreEntries(q, h.node);
    assert g.seeds == SeedStates(q.seeds);
    hide ViewOf;
    hide SeedStates;
    hide IsWalk;
    hide Labels;
    var w :| BestWalk(g, h.node, w) && Length(w) == h.depth && Kinds(w) == h.path
             && h.score == g.seeds[Origin(w)].score / (h.depth as real + 1.0);
    var t := WalkIsTrail(st, q, w);
    WeightOf(st, q, t, w);
    forall u | Arrives(st, q, u, h.node) ensures u.start < |q.seeds| && !Beats(q, u, t) {
      StartsInside(st, q, u);
      var v := TrailIsWalk(st, q, u);
      WeightOf(st, q, u, v);
      StateLessMeaning(q.seeds[u.start].score, Labels(u), q.seeds[t.start].score, Labels(t));
      assert Length(w) < Length(v) || (Length(w) == Length(v) && !StateLess(StateOf(g, v), StateOf(g, w)));
    }
    assert Tells(st, q, h, t);
  }

  lemma StartsInside(st: Store, q: Request, t: Trail)
    requires IsTrail(st, q, t)
    ensures t.start < |q.seeds|
  {
  }

  lemma StateLessMeaning(x: real, a: seq<string>, y: real, b: seq<string>)
    ensures StateLess(State(x, a), State(y, b)) <==> x > y || (x == y && PathLess(a, b))
  {
  }

  lemma FoundIsHit(st: Store, q: Request, n: Node) returns (i: nat)
    requires Found(st, q, n)
    ensures i < |Full(ViewOf(st, q), q.maxDepth)| && Full(ViewOf(st, q), q.maxDepth)[i].node == n
  {
    hide Full;
    hide IsTrail;
    var g := ViewOf(st, q);
    var t :| Arrives(st, q, t, n) && |t.legs| <= q.maxDepth;
    var w := TrailIsWalk(st, q, t);
    SeedStatesStartEmpty(q.seeds);
    SeedsAreEntries(q, n);
    ExpansionIsExact(g, q.maxDepth, n);
    var h :| h in Full(g, q.maxDepth) && h.node == n;
    i :| 0 <= i < |Full(g, q.maxDepth)| && Full(g, q.maxDepth)[i] == h;
  }

  /** The whole answer of a request: every hit tells of a best trail, the hits ascend without
      repeats, there are at most `maxNodes`, and a node that is found but not among them has an
      answer behind all of them, the list being full. */
  ghost predicate IsAnswer(st: Store, q: Request, hits: seq<Hit>) {
    && |hits| <= q.maxNodes
    && (forall h | h in hits :: Answers(st, q, h) && Found(st, q, h.node) && 1 <= h.depth <= q.maxDepth)
    && (forall i, j | 0 <= i < j < |hits| :: hits[i].node != hits[j].node && HitBefore(hits[i], hits[j]))
    && (forall n | Found(st, q, n) ::
          || (exists h :: h in hits && h.node == n)
          || (&& |hits| == q.maxNodes
              && exists x :: Answers(st, q, x) && x.node == n && forall h | h in hits :: HitBefore(h, x)))
  }

  lemma ExpansionAnswers(st: Store, q: Request)
    ensures IsAnswer(st, q, Expansion(ViewOf(st, q), q.maxDepth, q.maxNodes))
  {
    hide Full;
    hide Answers;
    hide Found;
    hide HitBefore;
    var g := ViewOf(st, q);
    var full, hits := Full(g, q.maxDepth), Expansion(g, q.maxDepth, q.maxNodes);
    hide ViewOf;
    forall h | h in full ensures Answers(st, q, h) && Found(st, q, h.node) && 1 <= h.depth <= q.maxDepth {
      HitTells(st, q, h);
    }
    forall i, j | 0 <= i < j < |full| ensures full[i].node != full[j].node && HitBefore(full[i], full[j]) {
      ExpansionIsOrdered(g, q.maxDepth, i, j);
    }
    forall n | Found(st, q, n) && !(exists h :: h in hits && h.node == n)
      ensures |hits| == q.maxNodes
      ensures exists x :: Answers(st, q, x) && x.node == n && forall h | h in hits :: HitBefore(h, x)
    {
      var k := FoundIsHit(st, q, n);
      assert forall j | 0 <= j < |hits| :: hits[j] == full[j] && hits[j] in hits;
      var x := full[k];
      forall h | h in hits ensures HitBefore(h, x) {
        var j :| 0 <= j < |hits| && hits[j] == h;
        assert full[j] == h;
      }
      assert x in full;
    }
  }

  /** A row leads from a seed to a node that is none: chunks have to be loaded. */
  ghost predicate Asks(st: Store, q: Request) {
    exists i: nat, leg :: i < |q.seeds| && Follows(st, q, q.seeds[i].node, leg) && !IsSeed(q, leg.node)
  }

  lemma AskingIsProposing(st: Store, q: Request)
    ensures var g := ViewOf(st, q);
            Asks(st, q) <==> Proposed(g.rows, g.direction, g.seeds, g.seeds.Keys) != map[]
  {
    hide Follows;
    var g := ViewOf(st, q);
    var proposed := Proposed(g.rows, g.direction, g.seeds, g.seeds.Keys);
    if Asks(st, q) {
      var i: nat, leg :| i < |q.seeds| && Follows(st, q, q.seeds[i].node, leg) && !IsSeed(q, leg.node);
      var m := q.seeds[i].node;
      FollowsIsJoined(st, q, m, leg);
      SeedsAreEntries(q, m);
      SeedsAreEntries(q, leg.node);
      var row :| row in g.rows && row.relationship.kind == leg.kind && Leads(g.direction, row, m, leg.node);
      assert Extend(g.seeds[m], row.relationship.kind) in Offers(g.rows, g.direction, g.seeds, leg.node);
      assert leg.node in Ends(g.rows);
      assert leg.node in proposed;
    }
    if proposed != map[] {
      var n :| n in proposed;
      var s :| s in Offers(g.rows, g.direction, g.seeds, n);
      var m, row := Offerer(g.rows, g.direction, g.seeds, n, s);
      SeedsAreEntries(q, m);
      SeedsAreEntries(q, n);
      FollowsIsJoined(st, q, m, Leg(row.relationship.kind, n));
      var i :| 0 <= i < |q.seeds| && q.seeds[i].node == m;
    }
  }
}
