/** `PostgreSQLGraphTraversal.expand`: the loop over the store, proved to return the expansion
    that module Graph defines.
 */
module GraphTraversal {
  import opened Outcomes
  import opened Ordering
  import opened Graph
  import opened GraphAnswers
  import opened Records
  import Security

  const SEPARATOR: char := '\U{1f}'

  /** The text key that SQL compares; the code compares the node again afterwards, so two nodes
      sharing a key do no harm. */
  function NodeKey(n: Node): string { n.source + [SEPARATOR] + n.chunk }

  method ReadSeeds(seeds: seq<Seed>) returns (states: map<Node, State>)
    ensures states == SeedStates(seeds)
  {
    states := map[];
    for i := 0 to |seeds|
      invariant states == SeedStates(seeds[..i])
    {
      assert seeds[..i + 1][..i] == seeds[..i];
      states := states[seeds[i].node := State(seeds[i].score, [])];
    }
    assert seeds[..|seeds|] == seeds;
  }

  predicate Touches(q: Request, row: Row, keys: set<string>) {
    || (q.direction != Incoming && NodeKey(row.relationship.from) in keys)
    || (q.direction != Outgoing && NodeKey(row.relationship.to) in keys)
  }

  method QueryRelationships(st: Store, q: Request, keys: set<string>) returns (rows: seq<Row>)
    ensures forall row :: row in rows <==> row in st.relationships && Active(st, q, row) && Touches(q, row, keys)
  {
    rows := [];
    for i := 0 to |st.relationships|
      invariant forall row :: row in rows <==> row in st.relationships[..i] && Active(st, q, row) && Touches(q, row, keys)
    {
      var row := st.relationships[i];
      assert st.relationships[..i + 1] == st.relationships[..i] + [row];
      if Active(st, q, row) && Touches(q, row, keys) { rows := rows + [row]; }
    }
    assert st.relationships[..|st.relationships|] == st.relationships;
  }

  /** What one row offers to nodes not visited yet. */
  function RowOffers(row: Row, direction: Direction, frontier: map<Node, State>, visited: set<Node>): set<(Node, State)> {
    (if direction != Incoming && row.relationship.from in frontier && row.relationship.to !in visited
     then {(row.relationship.to, Extend(frontier[row.relationship.from], row.relationship.kind))} else {})
    + (if direction != Outgoing && row.relationship.to in frontier && row.relationship.from !in visited
       then {(row.relationship.from, Extend(frontier[row.relationship.to], row.relationship.kind))} else {})
  }

  ghost predicate HoldsBest(states: map<Node, State>, offered: set<(Node, State)>) {
    && (forall o | o in offered :: o.0 in states && (o.1 == states[o.0] || StateLess(states[o.0], o.1)))
    && (forall n | n in states :: (n, states[n]) in offered)
  }

  /** The dictionary of proposals, updated in place. */
  class Proposals {
    var states: map<Node, State>

    constructor ()
      ensures states == map[]
    {
      states := map[];
    }

    /** `_select_proposal`: keeps the better of the present and the new candidate. */
    method Select(node: Node, parent: State, kind: string, visited: set<Node>, ghost offered: set<(Node, State)>)
      requires HoldsBest(states, offered)
      modifies this
      ensures HoldsBest(states, offered + if node in visited then {} else {(node, Extend(parent, kind))})
    {
      if node in visited {
        assert offered + {} == offered;
        return;
      }
      var candidate := Extend(parent, kind);
      StateOrder();
      if node !in states || StateLess(candidate, states[node]) {
        states := states[node := candidate];
      }
    }
  }

  lemma BestIsUnique(offers: set<State>, a: State, b: State)
    requires IsBest(offers, a) && IsBest(offers, b)
    ensures a == b
  {
    StateOrder();
  }

  /** All touching rows together offer exactly what the abstract graph offers. */
  lemma OffersOfAllRows(g: View, rows: seq<Row>, frontier: map<Node, State>, visited: set<Node>, offered: set<(Node, State)>)
    requires forall row | row in rows :: row in g.rows
    requires forall row, m, n | row in g.rows && m in frontier && Leads(g.direction, row, m, n) :: row in rows
    requires forall o :: o in offered <==> exists row :: row in rows && o in RowOffers(row, g.direction, frontier, visited)
    ensures forall n, s :: (n, s) in offered <==> n !in visited && s in Offers(g.rows, g.direction, frontier, n)
  {
    forall n, s ensures (n, s) in offered <==> n !in visited && s in Offers(g.rows, g.direction, frontier, n) {
      if (n, s) in offered {
        var row :| row in rows && (n, s) in RowOffers(row, g.direction, frontier, visited);
        var edge := row.relationship;
        var m := if g.direction != Incoming && edge.from in frontier && edge.to == n && s == Extend(frontier[edge.from], edge.kind)
                 then edge.from else edge.to;
        assert Leads(g.direction, row, m, n) && s == Extend(frontier[m], row.relationship.kind);
      }
      if n !in visited && s in Offers(g.rows, g.direction, frontier, n) {
        var m, row := Offerer(g.rows, g.direction, frontier, n, s);
        assert (n, s) in RowOffers(row, g.direction, frontier, visited);
      }
    }
  }

  lemma BestOffersAreProposed(g: View, frontier: map<Node, State>, visited: set<Node>, states: map<Node, State>,
        offered: set<(Node, State)>)
    requires HoldsBest(states, offered)
    requires forall n, s :: (n, s) in offered <==> n !in visited && s in Offers(g.rows, g.direction, frontier, n)
    ensures states == Proposed(g.rows, g.direction, frontier, visited)
  {
    var p := Proposed(g.rows, g.direction, frontier, visited);
    forall n ensures n in states <==> n in p {
      if n in states { assert (n, states[n]) in offered; InEnds(g.rows, g.direction, frontier, n, states[n]); }
      if n in p { assert (n, p[n]) in offered; }
    }
    forall n | n in states ensures states[n] == p[n] {
      var offers := Offers(g.rows, g.direction, frontier, n);
      forall s | s in offers ensures s == states[n] || StateLess(states[n], s) { assert (n, s) in offered; }
      assert (n, states[n]) in offered;
      BestIsUnique(offers, states[n], p[n]);
    }
  }

  lemma InEnds(rows: set<Row>, direction: Direction, frontier: map<Node, State>, n: Node, s: State)
    requires s in Offers(rows, direction, frontier, n)
    ensures n in Ends(rows)
  {
    var m, row := Offerer(rows, direction, frontier, n, s);
  }

  method ProposalsFor(st: Store, q: Request, frontier: map<Node, State>, visited: set<Node>)
    returns (states: map<Node, State>)
    ensures states == Proposed(ViewOf(st, q).rows, q.direction, frontier, visited)
  {
    hide Proposed;
    hide StateLess;
    hide Offers;
    ghost var g := ViewOf(st, q);
    var keys := set n | n in frontier :: NodeKey(n);
    var rows := QueryRelationships(st, q, keys);
    var proposals := new Proposals();
    ghost var offered := {};
    for i := 0 to |rows|
      invariant HoldsBest(proposals.states, offered)
      invariant forall o :: o in offered <==> exists row :: row in rows[..i] && o in RowOffers(row, q.direction, frontier, visited)
    {
      var row := rows[i];
      var from, to, kind := row.relationship.from, row.relationship.to, row.relationship.kind;
      assert rows[..i + 1] == rows[..i] + [row];
      ghost var before := offered;
      if q.direction != Incoming && from in frontier {
        proposals.Select(to, frontier[from], kind, visited, offered);
        offered := offered + if to in visited then {} else {(to, Extend(frontier[from], kind))};
      }
      if q.direction != Outgoing && to in frontier {
        proposals.Select(from, frontier[to], kind, visited, offered);
        offered := offered + if from in visited then {} else {(from, Extend(frontier[to], kind))};
      }
      assert offered == before + RowOffers(row, q.direction, frontier, visited);
    }
    assert rows[..|rows|] == rows;
    OffersOfAllRows(g, rows, frontier, visited, offered);
    BestOffersAreProposed(g, frontier, visited, proposals.states, offered);
    states := proposals.states;
  }

  /** The visible chunks among some nodes; the security clause may raise. */
  method LoadChunks(st: Store, q: Request, nodes: set<Node>) returns (r: Result<set<Node>, GraphError>)
    ensures r.Err? <==> Security.ClauseRaises(q.scope)
    ensures r.Ok? ==> forall n | n in nodes :: n in r.value <==> n in ViewOf(st, q).visible
  {
    if Security.ClauseRaises(q.scope) { return Err(DependencyUnavailable); }
    var keys := set n | n in nodes :: NodeKey(n);
    var found: set<Node> := {};
    for i := 0 to |st.chunks|
      invariant forall n :: n in found <==> exists row :: row in st.chunks[..i] && row.node == n && NodeKey(n) in keys && VisibleRow(st, q, row)
    {
      var row := st.chunks[i];
      assert st.chunks[..i + 1] == st.chunks[..i] + [row];
      if NodeKey(row.node) in keys && VisibleRow(st, q, row) { found := found + {row.node}; }
    }
    assert st.chunks[..|st.chunks|] == st.chunks;
    r := Ok(found);
  }

  lemma LayerFromProposals(g: View, k: nat, states: map<Node, State>)
    requires k > 0 && states == Proposed(g.rows, g.direction, Layer(g, k - 1), Visited(g, k - 1))
    ensures Layer(g, k) == map n | n in states && n in g.visible :: states[n]
    ensures forall item | item in states.Items :: item in Layer(g, k).Items <==> item.0 in g.visible
    ensures states.Items * Layer(g, k).Items == Layer(g, k).Items
    ensures forall item | item in states.Items :: item.0 in states && states[item.0] == item.1
  {
    hide Proposed;
  }

  /** The hits of a layer are the sorted proposals without the invisible ones. */
  lemma LayerHitsFromProposals(g: View, k: nat, states: map<Node, State>)
    requires k > 0 && states == Proposed(g.rows, g.direction, Layer(g, k - 1), Visited(g, k - 1))
    ensures StrictTotal(ItemLess)
    ensures LayerHits(g, k) == HitsOf(Keep(Sorted(ItemLess, states.Items), Layer(g, k).Items), k)
  {
    hide Proposed;
    ItemOrder();
    LayerFromProposals(g, k, states);
    KeepSorted(ItemLess, states.Items, Layer(g, k).Items);
  }

  lemma KeepPrefix<T(!new)>(items: seq<T>, i: nat, kept: set<T>)
    requires i < |items|
    ensures Keep(items[..i + 1], kept) == Keep(items[..i], kept) + if items[i] in kept then [items[i]] else []
    ensures Keep(items[..i + 1], kept) <= Keep(items, kept)
    decreases |items| - i
  {
    assert items[..i + 1][..i] == items[..i];
    if i + 1 < |items| { KeepPrefix(items, i + 1, kept); } else { assert items[..i + 1] == items; }
  }

  /** One visible proposal becomes one more hit. */
  lemma HitsOfAppend(items: seq<(Node, State)>, item: (Node, State), depth: nat)
    ensures HitsOf(items + [item], depth) == HitsOf(items, depth) + [HitOf(item, depth)]
  {
  }

  lemma HitsOfPrefix(items: seq<(Node, State)>, all: seq<(Node, State)>, depth: nat)
    requires items <= all
    ensures HitsOf(items, depth) <= HitsOf(all, depth)
  {
    assert HitsOf(items, depth) == HitsOf(all, depth)[..|items|];
  }

  lemma NoHits(depth: nat)
    ensures HitsOf([], depth) == []
  {
  }

  lemma ViewFields(st: Store, q: Request)
    ensures ViewOf(st, q).direction == q.direction && ViewOf(st, q).seeds == SeedStates(q.seeds)
  {
  }

  lemma FirstLayer(g: View)
    ensures Layer(g, 0) == g.seeds && Visited(g, 0) == g.seeds.Keys && Full(g, 0) == []
  {
  }

  lemma NextLayer(g: View, k: nat)
    requires k > 0
    ensures Visited(g, k) == Visited(g, k - 1) + Layer(g, k).Keys
    ensures Full(g, k) == Full(g, k - 1) + LayerHits(g, k)
  {
    hide Layer;
  }

  lemma CutIsTake<T>(s: seq<T>, t: seq<T>, n: nat)
    requires s <= t && |s| == n
    ensures Take(t, n) == s
  {
  }

  /** One depth of the loop: what it appends, and where it stops. */
  method ExpandLayer(ghost g: View, depth: nat, items: seq<(Node, State)>, loaded: set<Node>, before: seq<Hit>, maxNodes: nat)
    returns (expanded: seq<Hit>, next: map<Node, State>, full: bool)
    requires depth > 0 && |before| < maxNodes
    requires forall item | item in items :: item.0 in loaded <==> item in Layer(g, depth).Items
    requires forall item | item in Layer(g, depth).Items :: item in items
    ensures full ==> |expanded| == maxNodes && expanded <= before + HitsOf(Keep(items, Layer(g, depth).Items), depth)
    ensures !full ==> |expanded| < maxNodes && expanded == before + HitsOf(Keep(items, Layer(g, depth).Items), depth)
    ensures !full ==> next == Layer(g, depth)
  {
    hide Layer;
    hide HitsOf;
    expanded, next, full := before, map[], false;
    NoHits(depth);
    ghost var kept := Layer(g, depth).Items;
    for i := 0 to |items|
      invariant |expanded| < maxNodes
      invariant expanded == before + HitsOf(Keep(items[..i], kept), depth)
      invariant forall n | n in next :: n in Layer(g, depth) && next[n] == Layer(g, depth)[n]
      invariant forall item | item in items[..i] && item in kept :: item.0 in next
    {
      var item := items[i];
      KeepPrefix(items, i, kept);
      assert items[..i + 1] == items[..i] + [item];
      if item.0 in loaded {
        HitsOfAppend(Keep(items[..i], kept), item, depth);
        expanded := expanded + [HitOf(item, depth)];
        assert expanded == before + HitsOf(Keep(items[..i + 1], kept), depth);
        next := next[item.0 := item.1];
        if |expanded| == maxNodes {
          HitsOfPrefix(Keep(items[..i + 1], kept), Keep(items, kept), depth);
          full := true;
          return;
        }
      } else {
        assert Keep(items[..i + 1], kept) == Keep(items[..i], kept);
      }
    }
    assert items[..|items|] == items;
    forall n | n in Layer(g, depth) ensures n in next { assert (n, Layer(g, depth)[n]) in kept; }
  }

  /** The loop over depths: it fails only when the security clause cannot be built and some proposal
      asks for chunks, and otherwise returns the expansion. */
  method Traverse(st: Store, q: Request) returns (r: Result<seq<Hit>, GraphError>)
    requires q.maxNodes >= 1 && q.maxDepth >= 1
    ensures var g := ViewOf(st, q);
            if Security.ClauseRaises(q.scope) && Proposed(g.rows, g.direction, g.seeds, g.seeds.Keys) != map[]
            then r == Err(DependencyUnavailable)
            else r == Ok(Expansion(g, q.maxDepth, q.maxNodes))
  {
    hide Proposed;
    hide LayerHits;
    hide ViewOf;
    hide ItemLess;
    hide Layer;
    hide Visited;
    hide Full;
    ghost var g := ViewOf(st, q);
    ViewFields(st, q);
    FirstLayer(g);
    var frontier := ReadSeeds(q.seeds);
    var visited := frontier.Keys;
    var expanded: seq<Hit> := [];
    var depth := 1;
    while depth <= q.maxDepth
      invariant 1 <= depth <= q.maxDepth + 1
      invariant frontier == Layer(g, depth - 1) && visited == Visited(g, depth - 1)
      invariant expanded == Full(g, depth - 1) && |expanded| < q.maxNodes
      invariant depth > 1 ==> !Security.ClauseRaises(q.scope)
      decreases q.maxDepth - depth
    {
      var proposals := ProposalsFor(st, q, frontier, visited);
      NextLayer(g, depth);
      LayerFromProposals(g, depth, proposals);
      LayerHitsFromProposals(g, depth, proposals);
      if proposals == map[] {
        EmptyLayerEndsSearch(g, depth, q.maxDepth);
        EmptyLayerHasNoHits(g, depth);
        assert expanded == Full(g, q.maxDepth);
        break;
      }
      var chunks := LoadChunks(st, q, proposals.Keys);
      if chunks.Err? { return Err(DependencyUnavailable); }
      var items := SortedList(ItemLess, proposals.Items);
      var next, full;
      expanded, next, full := ExpandLayer(g, depth, items, chunks.value, expanded, q.maxNodes);
      FullIsPrefix(g, depth, q.maxDepth);
      if full {
        CutIsTake(expanded, Full(g, q.maxDepth), q.maxNodes);
        return Ok(expanded);
      }
      visited := visited + next.Keys;
      if next == map[] {
        EmptyLayerEndsSearch(g, depth, q.maxDepth);
        assert expanded == Full(g, q.maxDepth);
        break;
      }
      frontier := next;
      depth := depth + 1;
    }
    assert expanded == Full(g, q.maxDepth);
    r := Ok(expanded);
  }

  /** The traversal fails only when the security clause cannot be built and a row leads from a seed
      to another node; otherwise it answers the request. */
  method Expand(st: Store, q: Request) returns (r: Result<seq<Hit>, GraphError>)
    requires q.maxNodes >= 1 && q.maxDepth >= 1
    ensures r.Err? <==> Security.ClauseRaises(q.scope) && Asks(st, q)
    ensures r.Ok? ==> IsAnswer(st, q, r.value) && r.value == Expansion(ViewOf(st, q), q.maxDepth, q.maxNodes)
  {
    hide IsAnswer;
    hide Asks;
    hide Proposed;
    hide ViewOf;
    hide Expansion;
    hide Security.ClauseRaises;
    r := Traverse(st, q);
    AskingIsProposing(st, q);
    ExpansionAnswers(st, q);
  }

  /** Read off the store: whatever the limits, every returned hit carries a best shortest walk
      and sits on a chunk that the in-memory boundary check accepts as well. */
  lemma ReturnedHitsAreSound(st: Store, q: Request, h: Hit)
    requires h in Expansion(ViewOf(st, q), q.maxDepth, q.maxNodes)
    requires forall row | row in st.chunks && row.chunk.tenant == q.scope.tenant && row.chunk.domain == q.scope.domain ::
               Security.IngestibleSecurity(q.scope.model, row.chunk.security)
    ensures CarriesBestWalk(ViewOf(st, q), h) && 1 <= h.depth <= q.maxDepth
    ensures exists row :: row in st.chunks && row.node == h.node && VisibleRow(st, q, row)
                          && Security.MemoryFilter(q.scope, row.chunk) == Ok(true)
  {
    hide Full;
    var g := ViewOf(st, q);
    SeedStatesStartEmpty(q.seeds);
    ExpansionIsOptimal(g, q.maxDepth, h);
    var row :| row in st.chunks && VisibleRow(st, q, row) && row.node == h.node;
    Security.EncodingsAgree(q.scope, row.chunk);
  }
}
