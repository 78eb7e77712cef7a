/** Bounded expansion of retrieval seeds over the relationship graph: a layered breadth-first
    search that keeps, for every node, the best (seed score, label path) pair.
 */
module Graph {
  import opened Outcomes
  import opened Ordering
  import opened Records
  import Security

  /** One row of the chunk table. */
  datatype ChunkRow = ChunkRow(node: Node, version: string, chunk: Security.Chunk)

  datatype Store = Store(current: map<SourceKey, string>, relationships: seq<Row>, chunks: seq<ChunkRow>)

  datatype Direction = Outgoing | Incoming | Both

  datatype Seed = Seed(node: Node, score: real)

  datatype Request = Request(
    seeds: seq<Seed>, scope: Security.Request, maxDepth: nat, maxNodes: nat, direction: Direction, kinds: set<string>)

  /** What the search carries for a node: the undivided score of a seed and the labels from it. */
  datatype State = State(score: real, path: seq<string>)

  datatype Hit = Hit(node: Node, depth: nat, path: seq<string>, score: real)

  datatype GraphError = DependencyUnavailable

  predicate StateLess(a: State, b: State) {
    a.score > b.score || (a.score == b.score && PathLess(a.path, b.path))
  }

  /** Sorting key of a proposal: descending score, source, chunk, path. */
  predicate ItemLess(a: (Node, State), b: (Node, State)) {
    || a.1.score > b.1.score
    || (&& a.1.score == b.1.score
        && (|| StringLess(a.0.source, b.0.source)
            || (&& a.0.source == b.0.source
                && (|| StringLess(a.0.chunk, b.0.chunk)
                    || (a.0.chunk == b.0.chunk && PathLess(a.1.path, b.1.path))))))
  }

  lemma StateOrder()
    ensures StrictTotal(StateLess)
  {
    PathOrder();
  }

  lemma ItemOrder()
    ensures StrictTotal(ItemLess)
  {
    PathOrder();
    StringOrder();
  }

  function Extend(s: State, kind: string): State { State(s.score, s.path + [kind]) }

  // ------------------------------------------------------------------- the abstract graph

  /** What a request can see of the store: active rows of the wanted kinds, visible nodes,
      the direction rows are followed in, and the seeds. */
  datatype View = View(rows: set<Row>, visible: set<Node>, direction: Direction, seeds: map<Node, State>)

  predicate Active(st: Store, q: Request, row: Row) {
    && row.owner.source.tenant == q.scope.tenant && row.owner.source.domain == q.scope.domain
    && row.owner.source in st.current && st.current[row.owner.source] == row.owner.version
    && (q.kinds == {} || row.relationship.kind in q.kinds)
  }

  predicate VisibleRow(st: Store, q: Request, row: ChunkRow) {
    var source := SourceKey(row.chunk.tenant, row.chunk.domain, row.node.source);
    && source in st.current && st.current[source] == row.version
    && Security.SqlFilter(q.scope, row.chunk) == Ok(true)
  }

  /** A node listed twice among the seeds keeps its last score. */
  ghost function SeedStates(seeds: seq<Seed>): map<Node, State> {
    if seeds == [] then map[]
    else var last := seeds[|seeds| - 1]; SeedStates(seeds[..|seeds| - 1])[last.node := State(last.score, [])]
  }

  ghost function ViewOf(st: Store, q: Request): View {
    View(set row | row in st.relationships && Active(st, q, row),
         set row | row in st.chunks && VisibleRow(st, q, row) :: row.node,
         q.direction, SeedStates(q.seeds))
  }

  predicate Leads(direction: Direction, row: Row, m: Node, n: Node) {
    || (direction != Incoming && row.relationship.from == m && row.relationship.to == n)
    || (direction != Outgoing && row.relationship.to == m && row.relationship.from == n)
  }

  /** Everything the frontier offers to a node over some rows. */
  ghost function Offers(rows: set<Row>, direction: Direction, frontier: map<Node, State>, n: Node): set<State> {
    set m, row | m in frontier && row in rows && Leads(direction, row, m, n) :: Extend(frontier[m], row.relationship.kind)
  }

  ghost function Ends(rows: set<Row>): set<Node> {
    (set row | row in rows :: row.relationship.from) + (set row | row in rows :: row.relationship.to)
  }

  ghost predicate IsBest(offers: set<State>, b: State) {
    b in offers && forall o | o in offers :: o == b || StateLess(b, o)
  }

  lemma BestExists(offers: set<State>)
    requires offers != {}
    ensures exists b :: IsBest(offers, b)
  {
    StateOrder();
    assert IsBest(offers, Least(StateLess, offers));
  }

  ghost function Best(offers: set<State>): (b: State)
    requires offers != {}
    ensures IsBest(offers, b)
  {
    BestExists(offers);
    var b :| IsBest(offers, b);
    b
  }

  /** The best offer for every node that has one and was not visited. */
  ghost function Proposed(rows: set<Row>, direction: Direction, frontier: map<Node, State>,
        visited: set<Node>): map<Node, State> {
    map n | n in Ends(rows) && n !in visited && Offers(rows, direction, frontier, n) != {}
      :: Best(Offers(rows, direction, frontier, n))
  }

  ghost function Layer(g: View, k: nat): map<Node, State>
    decreases k, 0
  {
    if k == 0 then g.seeds
    else
      var p := Proposed(g.rows, g.direction, Layer(g, k - 1), Visited(g, k - 1));
      map n | n in p && n in g.visible :: p[n]
  }

  ghost function Visited(g: View, k: nat): set<Node>
    decreases k, 1
  {
    if k == 0 then g.seeds.Keys else Visited(g, k - 1) + Layer(g, k).Keys
  }

  function HitOf(item: (Node, State), depth: nat): Hit {
    Hit(item.0, depth, item.1.path, item.1.score / (depth as real + 1.0))
  }

  function HitsOf(items: seq<(Node, State)>, depth: nat): seq<Hit> {
    seq(|items|, i requires 0 <= i < |items| => HitOf(items[i], depth))
  }

  ghost function LayerHits(g: View, k: nat): seq<Hit> {
    ItemOrder();
    HitsOf(Sorted(ItemLess, Layer(g, k).Items), k)
  }

  /** The whole expansion to a depth, without a node limit. */
  ghost function Full(g: View, depth: nat): seq<Hit> {
    if depth == 0 then [] else Full(g, depth - 1) + LayerHits(g, depth)
  }

  function Take<T>(s: seq<T>, n: nat): seq<T> { if |s| <= n then s else s[..n] }

  // ---------------------------------------------------------------------- walks, the meaning

  /** A walk from a seed over active rows through visible nodes. */
  datatype Walk = Start(seed: Node) | Hop(prev: Walk, kind: string, node: Node)

  function End(w: Walk): Node { if w.Start? then w.seed else w.node }

  function Length(w: Walk): nat { if w.Start? then 0 else Length(w.prev) + 1 }

  function Kinds(w: Walk): seq<string> { if w.Start? then [] else Kinds(w.prev) + [w.kind] }

  function Origin(w: Walk): Node { if w.Start? then w.seed else Origin(w.prev) }

  ghost predicate Joined(g: View, m: Node, kind: string, n: Node) {
    exists row :: row in g.rows && row.relationship.kind == kind && Leads(g.direction, row, m, n)
  }

  ghost predicate IsWalk(g: View, w: Walk) {
    match w
    case Start(seed) => seed in g.seeds
    case Hop(prev, kind, node) => IsWalk(g, prev) && node in g.visible && Joined(g, End(prev), kind, node)
  }

  /** Score of the seed the walk starts at, and the labels along it. */
  ghost function StateOf(g: View, w: Walk): State
    requires IsWalk(g, w)
  {
    if w.Start? then g.seeds[w.seed] else Extend(StateOf(g, w.prev), w.kind)
  }

  ghost predicate WellSeeded(g: View) { forall n | n in g.seeds :: g.seeds[n].path == [] }

  lemma {:induction false} SeedStatesStartEmpty(seeds: seq<Seed>)
    ensures forall n | n in SeedStates(seeds) :: SeedStates(seeds)[n].path == []
    ensures forall n :: n in SeedStates(seeds) <==> exists s :: s in seeds && s.node == n
  {
    if seeds != [] {
      var before, last := seeds[..|seeds| - 1], seeds[|seeds| - 1];
      SeedStatesStartEmpty(before);
      assert seeds == before + [last];
      forall n ensures n in SeedStates(seeds) <==> exists s :: s in seeds && s.node == n {
        if n in SeedStates(seeds) {
          if n == last.node { assert last in seeds; }
          else {
            assert n in SeedStates(before);
            var s :| s in before && s.node == n;
            assert s in seeds;
          }
        }
      }
    }
  }

  lemma {:induction false} StateOfMeaning(g: View, w: Walk)
    requires WellSeeded(g) && IsWalk(g, w)
    ensures Origin(w) in g.seeds && StateOf(g, w) == State(g.seeds[Origin(w)].score, Kinds(w))
    ensures |Kinds(w)| == Length(w)
  {
    if w.Hop? { StateOfMeaning(g, w.prev); }
  }

  lemma {:induction false} VisitedGrows(g: View, j: nat, k: nat)
    requires j <= k
    ensures Visited(g, j) <= Visited(g, k)
    decreases k
  {
    if j < k { VisitedGrows(g, j, k - 1); }
  }

  /** One layer, spelled out. */
  lemma LayerStep(g: View, k: nat, n: Node)
    requires k > 0
    ensures var offers := Offers(g.rows, g.direction, Layer(g, k - 1), n);
            && (n in Layer(g, k) <==> n in g.visible && n !in Visited(g, k - 1) && offers != {})
            && (n in Layer(g, k) ==> IsBest(offers, Layer(g, k)[n]))
  {
    var offers := Offers(g.rows, g.direction, Layer(g, k - 1), n);
    if offers != {} {
      var o :| o in offers;
      assert n in Ends(g.rows);
    }
  }

  lemma {:induction false} LayersAreFresh(g: View, j: nat, k: nat, n: Node)
    requires j < k && n in Layer(g, k)
    ensures n !in Layer(g, j)
  {
    hide Proposed;
    VisitedGrows(g, j, k - 1);
    LayerStep(g, k, n);
  }

  /** Every entry of a layer is carried by a real walk of that length. */
  lemma {:induction false} LayerIsWalked(g: View, k: nat, n: Node) returns (w: Walk)
    requires n in Layer(g, k)
    ensures IsWalk(g, w) && End(w) == n && Length(w) == k && StateOf(g, w) == Layer(g, k)[n]
  {
    hide Offers;
    hide Proposed;
    if k == 0 {
      w := Start(n);
    } else {
      LayerStep(g, k, n);
      var m, row := Offerer(g.rows, g.direction, Layer(g, k - 1), n, Layer(g, k)[n]);
      var prev := LayerIsWalked(g, k - 1, m);
      w := Hop(prev, row.relationship.kind, n);
    }
  }

  lemma Offerer(rows: set<Row>, direction: Direction, frontier: map<Node, State>, n: Node, s: State) returns (m: Node,
        row: Row)
    requires s in Offers(rows, direction, frontier, n)
    ensures m in frontier && row in rows && Leads(direction, row, m, n) && s == Extend(frontier[m], row.relationship.kind)
  {
    m, row :| m in frontier && row in rows && Leads(direction, row, m, n) && s == Extend(frontier[m], row.relationship.kind);
  }

  /** A neighbour of a visited node is visited one layer later at the latest. */
  lemma {:induction false} NeighbourIsVisited(g: View, k: nat, m: Node, kind: string, n: Node)
    requires m in Visited(g, k) && n in g.visible && Joined(g, m, kind, n)
    ensures n in Visited(g, k + 1)
    decreases k
  {
    if m in Layer(g, k) {
      if n !in Visited(g, k) {
        var row :| row in g.rows && row.relationship.kind == kind && Leads(g.direction, row, m, n);
        assert Extend(Layer(g, k)[m], row.relationship.kind) in Offers(g.rows, g.direction, Layer(g, k), n);
        assert n in Ends(g.rows);
      }
    } else {
      NeighbourIsVisited(g, k - 1, m, kind, n);
    }
  }

  lemma ExtendKeepsOrder(a: State, b: State, kind: string)
    requires |a.path| == |b.path| && !StateLess(b, a)
    ensures !StateLess(Extend(b, kind), Extend(a, kind))
  {
    StringOrder();
    LexAppend(StringLess, b.path, a.path, kind);
  }

  lemma {:induction false} LayerPathLength(g: View, k: nat, n: Node)
    requires WellSeeded(g) && n in Layer(g, k)
    ensures |Layer(g, k)[n].path| == k
  {
    var w := LayerIsWalked(g, k, n);
    StateOfMeaning(g, w);
  }

  /** Optimal substructure: a walk ends in a visited node, and when no shorter walk got there
      first, the layer holds something at least as good as this walk. */
  lemma {:induction false} WalkIsBounded(g: View, w: Walk)
    requires WellSeeded(g) && IsWalk(g, w)
    ensures End(w) in Visited(g, Length(w))
    ensures Length(w) == 0 || End(w) !in Visited(g, Length(w) - 1) ==>
              End(w) in Layer(g, Length(w)) && !StateLess(StateOf(g, w), Layer(g, Length(w))[End(w)])
  {
    hide Proposed;
    hide StateLess;
    if w.Start? {
      StateIrreflexive(StateOf(g, w));
    } else {
      var k, m, n := Length(w), End(w.prev), w.node;
      WalkIsBounded(g, w.prev);
      NeighbourIsVisited(g, k - 1, m, w.kind, n);
      if n !in Visited(g, k - 1) {
        if k - 1 > 0 && m in Visited(g, k - 2) {
          NeighbourIsVisited(g, k - 2, m, w.kind, n);
          assert false;
        }
        var frontier := Layer(g, k - 1);
        var row :| row in g.rows && row.relationship.kind == w.kind && Leads(g.direction, row, m, n);
        var candidate := Extend(frontier[m], row.relationship.kind);
        assert candidate in Offers(g.rows, g.direction, frontier, n);
        LayerStep(g, k, n);
        LayerPathLength(g, k - 1, m);
        StateOfMeaning(g, w.prev);
        ExtendKeepsOrder(frontier[m], StateOf(g, w.prev), w.kind);
        NotLessTransitive(Layer(g, k)[n], candidate, StateOf(g, w));
      }
    }
  }

  lemma StateIrreflexive(s: State)
    ensures !StateLess(s, s)
  {
    StateOrder();
  }

  lemma NotLessTransitive(a: State, b: State, c: State)
    requires (a == b || StateLess(a, b)) && !StateLess(c, b)
    ensures !StateLess(c, a)
  {
    StateOrder();
  }

  lemma {:induction false} VisitedMeansLayer(g: View, k: nat, n: Node) returns (j: nat)
    requires n in Visited(g, k)
    ensures j <= k && n in Layer(g, j)
  {
    if k == 0 || n in Layer(g, k) { j := k; } else { j := VisitedMeansLayer(g, k - 1, n); }
  }

  /** Membership in a layer is being at exactly that distance. */
  lemma LayerIsDistance(g: View, k: nat, n: Node)
    requires WellSeeded(g)
    ensures n in Layer(g, k) <==>
              && (exists w :: IsWalk(g, w) && End(w) == n && Length(w) == k)
              && (forall w | IsWalk(g, w) && End(w) == n :: k <= Length(w))
  {
    hide Proposed;
    if n in Layer(g, k) {
      var w0 := LayerIsWalked(g, k, n);
      forall w | IsWalk(g, w) && End(w) == n ensures k <= Length(w) {
        WalkIsBounded(g, w);
        if Length(w) < k {
          var j := VisitedMeansLayer(g, Length(w), n);
          LayersAreFresh(g, j, k, n);
        }
      }
    } else if exists w :: IsWalk(g, w) && End(w) == n && Length(w) == k {
      var w :| IsWalk(g, w) && End(w) == n && Length(w) == k;
      WalkIsBounded(g, w);
      var j := VisitedMeansLayer(g, k, n);
      var shorter := LayerIsWalked(g, j, n);
      assert j < k;
    }
  }

  // ------------------------------------------------------------------------- main results

  lemma InLayerHits(g: View, k: nat, h: Hit)
    ensures h in LayerHits(g, k) <==> h.node in Layer(g, k) && h == HitOf((h.node, Layer(g, k)[h.node]), k)
  {
    hide Proposed;
    hide ItemLess;
    ItemOrder();
    var items := Sorted(ItemLess, Layer(g, k).Items);
    if h in LayerHits(g, k) {
      var i :| 0 <= i < |items| && HitsOf(items, k)[i] == h;
      assert items[i] in Layer(g, k).Items;
    } else if h.node in Layer(g, k) {
      assert (h.node, Layer(g, k)[h.node]) in Layer(g, k).Items;
      var i :| 0 <= i < |items| && items[i] == (h.node, Layer(g, k)[h.node]);
      assert HitsOf(items, k)[i] in LayerHits(g, k);
    }
  }

  lemma {:induction false} InFull(g: View, d: nat, h: Hit)
    ensures h in Full(g, d) <==>
              1 <= h.depth <= d && h.node in Layer(g, h.depth) && h == HitOf((h.node, Layer(g, h.depth)[h.node]), h.depth)
  {
    hide Proposed;
    hide LayerHits;
    if d > 0 {
      InFull(g, d - 1, h);
      InLayerHits(g, d, h);
    }
  }

  /** A hit is carried by a best shortest walk: a real walk to its node, no walk to the node is
      shorter, and none of the same length has a higher seed score or, at equal score, a
      smaller label sequence. */
  ghost predicate CarriesBestWalk(g: View, h: Hit) {
    exists w :: BestWalk(g, h.node, w) && Length(w) == h.depth && Kinds(w) == h.path
                && h.score == g.seeds[Origin(w)].score / (h.depth as real + 1.0)
  }

  ghost predicate BestWalk(g: View, n: Node, w: Walk) {
    && IsWalk(g, w) && End(w) == n && Origin(w) in g.seeds
    && forall v | IsWalk(g, v) && End(v) == n ::
         Length(w) < Length(v) || (Length(w) == Length(v) && !StateLess(StateOf(g, v), StateOf(g, w)))
  }

  lemma LayerHoldsBestWalk(g: View, k: nat, n: Node) returns (w: Walk)
    requires WellSeeded(g) && n in Layer(g, k)
    ensures BestWalk(g, n, w) && Length(w) == k && StateOf(g, w) == Layer(g, k)[n]
    ensures Layer(g, k)[n] == State(g.seeds[Origin(w)].score, Kinds(w))
  {
    hide Proposed;
    hide StateLess;
    w := LayerIsWalked(g, k, n);
    StateOfMeaning(g, w);
    LayerIsDistance(g, k, n);
    forall v | IsWalk(g, v) && End(v) == n
      ensures k < Length(v) || (k == Length(v) && !StateLess(StateOf(g, v), StateOf(g, w)))
    {
      if Length(v) == k {
        WalkIsBounded(g, v);
        if k > 0 && n in Visited(g, k - 1) {
          var j := VisitedMeansLayer(g, k - 1, n);
          LayersAreFresh(g, j, k, n);
        }
      }
    }
  }

  lemma ExpansionIsOptimal(g: View, d: nat, h: Hit)
    requires WellSeeded(g) && h in Full(g, d)
    ensures 1 <= h.depth <= d && h.node !in g.seeds && h.node in g.visible
    ensures CarriesBestWalk(g, h)
  {
    hide Full;
    hide Proposed;
    hide Offers;
    hide BestWalk;
    InFull(g, d, h);
    var w := LayerHoldsBestWalk(g, h.depth, h.node);
    LayersAreFresh(g, 0, h.depth, h.node);
    LayerStep(g, h.depth, h.node);
    assert BestWalk(g, h.node, w) && Length(w) == h.depth && Kinds(w) == h.path;
  }

  /** Without a node limit the expansion holds exactly the nodes that are no seeds and that some
      walk of at most that many hops reaches. */
  lemma ExpansionIsExact(g: View, d: nat, n: Node)
    requires WellSeeded(g)
    ensures (exists h :: h in Full(g, d) && h.node == n) <==>
            n !in g.seeds && exists w :: IsWalk(g, w) && End(w) == n && Length(w) <= d
  {
    hide Full;
    hide LayerHits;
    hide Proposed;
    if h :| h in Full(g, d) && h.node == n {
      ExpansionIsOptimal(g, d, h);
      InFull(g, d, h);
      var w := LayerIsWalked(g, h.depth, n);
    }
    if n !in g.seeds && exists w :: IsWalk(g, w) && End(w) == n && Length(w) <= d {
      var w :| IsWalk(g, w) && End(w) == n && Length(w) <= d;
      WalkIsBounded(g, w);
      var k := VisitedMeansLayer(g, Length(w), n);
      var h := HitOf((n, Layer(g, k)[n]), k);
      InFull(g, d, h);
      assert h in Full(g, d) && h.node == n;
    }
  }

  /** Order of the output: depth, then descending score, then node. */
  predicate HitBefore(a: Hit, b: Hit) {
    || a.depth < b.depth
    || (&& a.depth == b.depth
        && (|| a.score > b.score
            || (&& a.score == b.score
                && (|| StringLess(a.node.source, b.node.source)
                    || (a.node.source == b.node.source && StringLess(a.node.chunk, b.node.chunk))))))
  }

  lemma ScalingKeepsSign(x: real, c: real)
    requires c > 0.0
    ensures x > 0.0 <==> x * c > 0.0
    ensures x == 0.0 <==> x * c == 0.0
  {
  }

  lemma DivisionKeepsOrder(a: real, b: real, c: real)
    requires c > 0.0
    ensures a > b <==> a / c > b / c
    ensures a == b <==> a / c == b / c
  {
    ScalingKeepsSign(a / c - b / c, c);
    assert (a / c - b / c) * c == a - b;
  }

  lemma LayerHitsAscend(g: View, k: nat, i: nat, j: nat)
    requires i < j < |LayerHits(g, k)|
    ensures LayerHits(g, k)[i].node != LayerHits(g, k)[j].node
    ensures HitBefore(LayerHits(g, k)[i], LayerHits(g, k)[j])
  {
    hide Proposed;
    ItemOrder();
    var items := Sorted(ItemLess, Layer(g, k).Items);
    SortedAscends(ItemLess, Layer(g, k).Items, i, j);
    assert items[i] in Layer(g, k).Items && items[j] in Layer(g, k).Items;
    assert items[i] != items[j];
    DivisionKeepsOrder(items[i].1.score, items[j].1.score, k as real + 1.0);
  }

  lemma LayerHitDepth(g: View, k: nat, i: nat)
    requires i < |LayerHits(g, k)|
    ensures LayerHits(g, k)[i].depth == k
  {
    InLayerHits(g, k, LayerHits(g, k)[i]);
  }

  /** The output is strictly ordered and no node appears twice. */
  lemma {:induction false} ExpansionIsOrdered(g: View, d: nat, i: nat, j: nat)
    requires i < j < |Full(g, d)|
    ensures HitBefore(Full(g, d)[i], Full(g, d)[j])
    ensures Full(g, d)[i].node != Full(g, d)[j].node
  {
    hide LayerHits;
    hide Proposed;
    var before := |Full(g, d - 1)|;
    if j < before {
      ExpansionIsOrdered(g, d - 1, i, j);
    } else if i >= before {
      LayerHitsAscend(g, d, i - before, j - before);
    } else {
      InFull(g, d - 1, Full(g, d - 1)[i]);
      InLayerHits(g, d, LayerHits(g, d)[j - before]);
      LayerHitDepth(g, d, j - before);
      LayersAreFresh(g, Full(g, d)[i].depth, d, Full(g, d)[j].node);
    }
  }

  lemma {:induction false} FullIsPrefix(g: View, d: nat, e: nat)
    requires d <= e
    ensures Full(g, d) <= Full(g, e)
  {
    hide LayerHits;
    if d < e { FullIsPrefix(g, d, e - 1); }
  }

  /** What `expand` returns: the expansion to the depth limit, cut at the node limit. */
  ghost function Expansion(g: View, maxDepth: nat, maxNodes: nat): seq<Hit> {
    Take(Full(g, maxDepth), maxNodes)
  }

  /** Tightening either limit only cuts the tail off. */
  lemma TruncationIsPrefix(g: View, d: nat, e: nat, k: nat, l: nat)
    requires d <= e && k <= l
    ensures Expansion(g, d, k) <= Expansion(g, e, l)
  {
    hide Full;
    FullIsPrefix(g, d, e);
  }

  /** The answer depends on which relationship rows there are, not on how they are listed. */
  lemma RowOrderIsIrrelevant(st: Store, st': Store, q: Request)
    requires st'.current == st.current
    requires forall row :: row in st.relationships <==> row in st'.relationships
    requires forall row :: row in st.chunks <==> row in st'.chunks
    ensures ViewOf(st, q) == ViewOf(st', q)
  {
    assert forall row :: Active(st, q, row) == Active(st', q, row);
    assert forall row :: VisibleRow(st, q, row) == VisibleRow(st', q, row);
    assert ViewOf(st, q).rows == ViewOf(st', q).rows;
    assert ViewOf(st, q).visible == ViewOf(st', q).visible;
  }

  lemma EmptyLayerHasNoHits(g: View, k: nat)
    requires Layer(g, k) == map[]
    ensures LayerHits(g, k) == []
  {
    ItemOrder();
    assert Layer(g, k).Items == {};
  }

  /** Nothing is found beyond a layer that is empty. */
  lemma {:induction false} EmptyLayerEndsSearch(g: View, k: nat, d: nat)
    requires k <= d && Layer(g, k) == map[]
    ensures Full(g, d) == Full(g, k) && Layer(g, d) == map[]
  {
    hide Proposed;
    hide StateLess;
    hide LayerHits;
    if k < d {
      EmptyLayerEndsSearch(g, k, d - 1);
      forall n ensures n !in Layer(g, d) {
        LayerStep(g, d, n);
        assert Offers(g.rows, g.direction, Layer(g, d - 1), n) == {};
      }
      EmptyLayerHasNoHits(g, d);
    }
  }
}
