/** The static knowledge graph: a node table, an edge list and an undirected
    adjacency index, with neighbourhood expansion and subgraph selection. */
module KgStore {
  import opened Wrappers
  import opened Graph
  import opened Sorting

  /** `{n.id: n for n in nodes}`: a later node with the same id replaces an earlier one. */
  function NodeTable(nodes: seq<Node>): (t: map<string, Node>)
    ensures forall k :: k in t ==> t[k].id == k
    ensures forall i :: 0 <= i < |nodes| ==> nodes[i].id in t
    ensures forall k :: k in t ==> exists i :: 0 <= i < |nodes| && nodes[i] == t[k]
  {
    if nodes == [] then map[]
    else
      var last := nodes[|nodes| - 1];
      NodeTable(nodes[..|nodes| - 1])[last.id := last]
  }

  /** The entry for an id is the LAST node with that id: a node no later node
      shares its id with is the table's entry. */
  lemma {:induction false} NodeTableLastWins(nodes: seq<Node>, i: nat)
    requires i < |nodes| && forall j :: i < j < |nodes| ==> nodes[j].id != nodes[i].id
    ensures NodeTable(nodes)[nodes[i].id] == nodes[i]
  {
    if i < |nodes| - 1 {
      var init := nodes[..|nodes| - 1];
      assert nodes[|nodes| - 1].id != nodes[i].id;
      assert forall j :: i < j < |init| ==> init[j] == nodes[j];
      NodeTableLastWins(init, i);
    }
  }

  /** The edges an adjacency entry for `n` holds: each edge once per endpoint
      equal to `n`, in edge order. */
  function IncidentTo(edges: seq<Edge>, n: string): seq<Edge> {
    if edges == [] then []
    else
      var e := edges[|edges| - 1];
      IncidentTo(edges[..|edges| - 1], n) + (if e.from == n then [e] else []) + (if e.to == n then [e] else [])
  }

  /** An edge is registered under `n` exactly when it is one of the edges and touches `n`. */
  lemma {:induction false} IncidentToMembers(edges: seq<Edge>, n: string, e: Edge)
    ensures e in IncidentTo(edges, n) <==> e in edges && (e.from == n || e.to == n)
  {
    if edges != [] {
      var init := edges[..|edges| - 1];
      IncidentToMembers(init, n, e);
      assert edges == init + [edges[|edges| - 1]];
    }
  }

  /** `defaultdict(list)` lookup. */
  function Lookup(m: map<string, seq<Edge>>, n: string): seq<Edge> {
    if n in m then m[n] else []
  }

  /** The endpoint of `e` that is not `n` (`n` itself for a self-loop). */
  function Other(e: Edge, n: string): string {
    if e.from == n then e.to else e.from
  }

  /** The far endpoints of the edges `es` seen from `n`. */
  function OthersOf(es: seq<Edge>, n: string): set<string> {
    if es == [] then {} else OthersOf(es[..|es| - 1], n) + {Other(es[|es| - 1], n)}
  }

  lemma {:induction false} OthersOfMembers(es: seq<Edge>, n: string, x: string)
    ensures x in OthersOf(es, n) <==> exists e :: e in es && Other(e, n) == x
  {
    if es != [] {
      var init := es[..|es| - 1];
      OthersOfMembers(init, n, x);
      assert es == init + [es[|es| - 1]];
    }
  }

  /** The far endpoint of an edge is one of its endpoints. */
  lemma {:induction false} OthersInEnds(es: seq<Edge>, n: string, x: string)
    requires x in OthersOf(es, n)
    ensures x in EndsOf(es)
  {
    var init := es[..|es| - 1];
    if x in OthersOf(init, n) {
      OthersInEnds(init, n, x);
    }
  }

  /** Both endpoints of every edge in `es`. */
  function EndsOf(es: seq<Edge>): set<string> {
    if es == [] then {} else EndsOf(es[..|es| - 1]) + {es[|es| - 1].from, es[|es| - 1].to}
  }

  /** The ids among `ids` that name a known node, mapped to their nodes, in order. */
  function KnownNodes(table: map<string, Node>, ids: seq<string>): (r: seq<Node>)
    requires forall k :: k in table ==> table[k].id == k
    ensures |r| <= |ids|
    ensures forall i :: 0 <= i < |r| ==> r[i].id in table && table[r[i].id] == r[i]
  {
    if ids == [] then []
    else
      var rest := KnownNodes(table, ids[..|ids| - 1]);
      var last := ids[|ids| - 1];
      if last in table then rest + [table[last]] else rest
  }

  lemma {:induction false} KnownNodesFromIds(table: map<string, Node>, ids: seq<string>, i: nat)
    requires forall k :: k in table ==> table[k].id == k
    requires i < |KnownNodes(table, ids)|
    ensures KnownNodes(table, ids)[i].id in ids
  {
    var init := ids[..|ids| - 1];
    if i < |KnownNodes(table, init)| {
      KnownNodesFromIds(table, init, i);
    }
  }

  /** The edges, in order, whose two endpoints are both among `ids`. */
  function EdgesWithin(edges: seq<Edge>, ids: seq<string>): (r: seq<Edge>)
    ensures forall i :: 0 <= i < |r| ==> r[i] in edges && r[i].from in ids && r[i].to in ids
  {
    if edges == [] then []
    else
      var rest := EdgesWithin(edges[..|edges| - 1], ids);
      var e := edges[|edges| - 1];
      if e.from in ids && e.to in ids then rest + [e] else rest
  }

  /** No edge with both endpoints selected is dropped. */
  lemma {:induction false} EdgesWithinComplete(edges: seq<Edge>, ids: seq<string>, e: Edge)
    requires e in edges && e.from in ids && e.to in ids
    ensures e in EdgesWithin(edges, ids)
  {
    var init := edges[..|edges| - 1];
    if e != edges[|edges| - 1] {
      assert edges == init + [edges[|edges| - 1]];
      EdgesWithinComplete(init, ids, e);
    }
  }

  /** The ids one edge away from `n` in the adjacency index. */
  function Step(adj: map<string, seq<Edge>>, n: string): set<string> {
    OthersOf(Lookup(adj, n), n)
  }

  /** The ids one step from some member of `s`. */
  ghost function Expand(adj: map<string, seq<Edge>>, s: set<string>): set<string> {
    set m, x | m in s && x in Step(adj, m) :: x
  }

  /** The ids within `k` steps of `n`. */
  ghost function Ball(adj: map<string, seq<Edge>>, n: string, k: nat): set<string> {
    if k == 0 then {n} else Ball(adj, n, k - 1) + Expand(adj, Ball(adj, n, k - 1))
  }

  /** What `get_neighbors(n, hops)` promises: the ids within `hops - 1` steps, without `n`. */
  ghost function Neighbors(adj: map<string, seq<Edge>>, n: string, hops: nat): set<string> {
    if hops == 0 then {} else Ball(adj, n, hops - 1) - {n}
  }

  lemma ExpandUnion(adj: map<string, seq<Edge>>, a: set<string>, b: set<string>)
    ensures Expand(adj, a + b) == Expand(adj, a) + Expand(adj, b)
  {
    forall x | x in Expand(adj, a + b) ensures x in Expand(adj, a) + Expand(adj, b) {
      var m :| m in a + b && x in Step(adj, m);
    }
  }

  /** One round of `get_neighbors`: from the visited set `v` and the frontier
      `c`, the next visited set and frontier keep the invariant. */
  lemma RoundKeepsBall(adj: map<string, seq<Edge>>, n: string, k: nat, v: set<string>, c: set<string>)
    requires v + c == Ball(adj, n, k)
    requires Expand(adj, v) <= v + c
    ensures (v + c) + Expand(adj, c - v) == Ball(adj, n, k + 1)
    ensures Expand(adj, v + c) <= (v + c) + Expand(adj, c - v)
  {
    ExpandUnion(adj, v, c - v);
    assert v + (c - v) == v + c;
  }

  /** Both endpoints of every edge registered under a member of `s`. */
  ghost function EdgeIncident(adj: map<string, seq<Edge>>, s: set<string>): set<string> {
    set m, x | m in s && x in EndsOf(Lookup(adj, m)) :: x
  }

  /** The ids `get_neighbors(m, hops)` returns for some `m` in `s`. */
  ghost function NeighborsOfAll(adj: map<string, seq<Edge>>, s: set<string>, hops: nat): set<string> {
    set m, x | m in s && x in Neighbors(adj, m, hops) :: x
  }

  /** Every candidate id: the anchors, their edge endpoints and their neighbours. */
  ghost function AllCandidates(adj: map<string, seq<Edge>>, s: set<string>, hops: nat): set<string> {
    s + EdgeIncident(adj, s) + NeighborsOfAll(adj, s, hops)
  }

  lemma EdgeIncidentAdd(adj: map<string, seq<Edge>>, a: set<string>, m: string)
    ensures EdgeIncident(adj, a + {m}) == EdgeIncident(adj, a) + EndsOf(Lookup(adj, m))
  {
  }

  lemma NeighborsOfAllAdd(adj: map<string, seq<Edge>>, a: set<string>, m: string, hops: nat)
    ensures NeighborsOfAll(adj, a + {m}, hops) == NeighborsOfAll(adj, a, hops) + Neighbors(adj, m, hops)
  {
  }

  lemma ExpandAdd(adj: map<string, seq<Edge>>, a: set<string>, m: string)
    ensures Expand(adj, a + {m}) == Expand(adj, a) + Step(adj, m)
  {
    ExpandUnion(adj, a, {m});
  }

  /** The inner loop of `get_neighbors`: add the far endpoint of each edge. */
  method AddOthers(acc: set<string>, es: seq<Edge>, n: string) returns (r: set<string>)
    ensures r == acc + OthersOf(es, n)
  {
    r := acc;
    for j := 0 to |es|
      invariant r == acc + OthersOf(es[..j], n)
    {
      assert es[..j + 1][..j] == es[..j];
      r := r + {Other(es[j], n)};
    }
    assert es[..|es|] == es;
  }

  /** The inner loop collecting edge endpoints in `subgraph_from_markers`. */
  method AddEnds(acc: set<string>, es: seq<Edge>) returns (r: set<string>)
    ensures r == acc + EndsOf(es)
  {
    r := acc;
    for j := 0 to |es|
      invariant r == acc + EndsOf(es[..j])
    {
      assert es[..j + 1][..j] == es[..j];
      r := r + {es[j].from, es[j].to};
    }
    assert es[..|es|] == es;
  }

  /** The ids one step from some member of `order`, gathered in that order. */
  function StepsOf(adj: map<string, seq<Edge>>, order: seq<string>): set<string> {
    if order == [] then {} else StepsOf(adj, order[..|order| - 1]) + Step(adj, order[|order| - 1])
  }

  lemma StepsOfIsExpand(adj: map<string, seq<Edge>>, order: seq<string>, s: set<string>)
    requires forall x :: x in order <==> x in s
    ensures StepsOf(adj, order) == Expand(adj, s)
  {
    forall y ensures y in StepsOf(adj, order) <==> y in Expand(adj, s) {
      StepsOfMembers(adj, order, y);
    }
  }

  /** `y` is gathered exactly when it is one step from some member of `order`. */
  lemma {:induction false} StepsOfMembers(adj: map<string, seq<Edge>>, order: seq<string>, y: string)
    ensures y in StepsOf(adj, order) <==> exists m :: m in order && y in Step(adj, m)
  {
    if order != [] {
      var init, last := order[..|order| - 1], order[|order| - 1];
      StepsOfMembers(adj, init, y);
      assert order == init + [last];
    }
  }

  /** One round of `get_neighbors`: visit every unvisited id of the frontier and
      collect the far endpoints of its edges as the next frontier. */
  method VisitFrontier(adj: map<string, seq<Edge>>, visited: set<string>, current: set<string>)
    returns (visitedAfter: set<string>, nextLevel: set<string>)
    ensures visitedAfter == visited + current
    ensures nextLevel == Expand(adj, current - visited)
  {
    visitedAfter := visited;
    nextLevel := {};
    var todo := current;
    ghost var order: seq<string> := [];
    while todo != {}
      invariant todo <= current
      invariant visitedAfter == visited + (current - todo)
      invariant forall x :: x in order <==> x in current - todo && x !in visited
      invariant nextLevel == StepsOf(adj, order)
      decreases todo
    {
      var m :| m in todo;
      if m !in visitedAfter {
        visitedAfter := visitedAfter + {m};
        nextLevel := AddOthers(nextLevel, Lookup(adj, m), m);
        assert (order + [m])[..|order|] == order;
        order := order + [m];
      }
      todo := todo - {m};
    }
    StepsOfIsExpand(adj, order, current - visited);
  }

  /** `list(s)`: the elements of a set in the set's own (unspecified) order. */
  method ListOfSet(s: set<string>) returns (r: seq<string>)
    ensures Enumerates(r, s)
  {
    r := [];
    var todo := s;
    while todo != {}
      invariant todo <= s
      invariant Enumerates(r, s - todo)
      decreases todo
    {
      var m :| m in todo;
      r := r + [m];
      todo := todo - {m};
    }
  }

  /** `index` is the adjacency index of `seen`: every id maps to the edges touching it. */
  ghost predicate Indexes(index: map<string, seq<Edge>>, seen: seq<Edge>) {
    forall n :: Lookup(index, n) == IncidentTo(seen, n)
  }

  /** One step of the constructor's loop: register `e` under both endpoints. */
  function Register(index: map<string, seq<Edge>>, ghost seen: seq<Edge>, e: Edge): (r: map<string, seq<Edge>>)
    requires Indexes(index, seen)
    ensures Indexes(r, seen + [e])
  {
    var first := index[e.from := Lookup(index, e.from) + [e]];
    var updated := first[e.to := Lookup(first, e.to) + [e]];
    forall n ensures Lookup(updated, n) == IncidentTo(seen + [e], n) {
      RegisterAt(index, seen, e, n);
    }
    updated
  }

  /** After registering `e`, the entry for `n` gains `e` once per endpoint equal to `n`. */
  lemma RegisterAt(index: map<string, seq<Edge>>, seen: seq<Edge>, e: Edge, n: string)
    requires Lookup(index, n) == IncidentTo(seen, n)
    ensures var first := index[e.from := Lookup(index, e.from) + [e]];
      Lookup(first[e.to := Lookup(first, e.to) + [e]], n) == IncidentTo(seen + [e], n)
  {
    IncidentToSnoc(seen, e, n);
    var first := index[e.from := Lookup(index, e.from) + [e]];
    var firstN := if e.from == n then IncidentTo(seen, n) + [e] else IncidentTo(seen, n);
    assert Lookup(first, n) == firstN;
    if e.to == n {
      assert Lookup(first[e.to := Lookup(first, e.to) + [e]], n) == firstN + [e];
    } else {
      assert Lookup(first[e.to := Lookup(first, e.to) + [e]], n) == firstN;
    }
  }

  lemma IncidentToSnoc(seen: seq<Edge>, e: Edge, n: string)
    ensures var firstN := if e.from == n then IncidentTo(seen, n) + [e] else IncidentTo(seen, n);
      IncidentTo(seen + [e], n) == if e.to == n then firstN + [e] else firstN
  {
    var s := seen + [e];
    assert s[..|s| - 1] == seen;
    var base := IncidentTo(seen, n);
    assert IncidentTo(s, n) == base + (if e.from == n then [e] else []) + (if e.to == n then [e] else []);
    assert base + [] == base;
    if e.from == n {
      assert base + [e] + [] == base + [e];
    }
  }

  /** The constructor's loop: register every edge, in order. */
  method BuildIndex(edgeList: seq<Edge>) returns (index: map<string, seq<Edge>>)
    ensures Indexes(index, edgeList)
  {
    index := map[];
    for i := 0 to |edgeList|
      invariant Indexes(index, edgeList[..i])
    {
      index := Register(index, edgeList[..i], edgeList[i]);
      assert edgeList[..i + 1] == edgeList[..i] + [edgeList[i]];
    }
    assert edgeList[..|edgeList|] == edgeList;
  }

  class KGStore {
    var nodes: map<string, Node>
    var edges: seq<Edge>
    var adj: map<string, seq<Edge>>

    /** The node table is keyed by id, and `adj` registers each edge under both endpoints. */
    ghost predicate Valid()
      reads this
    {
      && (forall k :: k in nodes ==> nodes[k].id == k)
      && Indexes(adj, edges)
    }

    /** Builds the node table and the adjacency index from a loaded graph. */
    constructor (nodeList: seq<Node>, edgeList: seq<Edge>)
      ensures Valid()
      ensures nodes == NodeTable(nodeList) && edges == edgeList
    {
      var index := BuildIndex(edgeList);
      nodes := NodeTable(nodeList);
      edges := edgeList;
      adj := index;
    }

    /** Every edge is listed under both of its endpoints. */
    lemma EveryEdgeRegistered(e: Edge)
      requires Valid()
      requires e in edges
      ensures e in Lookup(adj, e.from) && e in Lookup(adj, e.to)
    {
      IncidentToMembers(edges, e.from, e);
      IncidentToMembers(edges, e.to, e);
    }

    /** `x` is one step from `n` exactly when some edge joins them, in either direction. */
    lemma StepIsAdjacency(n: string, x: string)
      requires Valid()
      ensures x in Step(adj, n) <==> exists e :: e in edges && ((e.from == n && e.to == x) || (e.to == n && e.from == x))
    {
      OthersOfMembers(Lookup(adj, n), n, x);
      forall e ensures e in Lookup(adj, n) <==> e in edges && (e.from == n || e.to == n) {
        IncidentToMembers(edges, n, e);
      }
    }

    /** `get_neighbors(n, hops)`: the ids within `hops - 1` steps of `n`, without `n`;
        nothing for `hops <= 1`. */
    method GetNeighbors(nodeId: string, hops: nat) returns (r: set<string>)
      ensures r == Neighbors(adj, nodeId, hops)
    {
      var visited: set<string> := {};
      var current: set<string> := {nodeId};
      for round := 0 to hops
        invariant visited + current == Ball(adj, nodeId, round)
        invariant Expand(adj, visited) <= visited + current
        invariant visited == if round == 0 then {} else Ball(adj, nodeId, round - 1)
      {
        var v0 := visited;
        var nextLevel;
        visited, nextLevel := VisitFrontier(adj, visited, current);
        RoundKeepsBall(adj, nodeId, round, v0, current);
        current := nextLevel;
      }
      r := visited - {nodeId};
    }

    /** The ids of `markerIds` that name a known node. */
    function MarkerSet(markerIds: seq<string>): (s: set<string>)
      reads this
      ensures forall x :: x in s <==> x in markerIds && x in nodes
    {
      set x | x in markerIds && x in nodes
    }

    /** The three priority tiers, truncated to `maxNodes` ids, and the part of the
        graph those ids span. */
    ghost predicate Selection(
      markerIds: seq<string>, hops: nat, maxNodes: nat,
      tier1: seq<string>, tier2: seq<string>, tier3: seq<string>, selected: seq<string>, sub: Graph)
      reads this
      requires Valid()
    {
      var s := MarkerSet(markerIds);
      var ordered := tier1 + tier2 + tier3;
      && Enumerates(tier1, s)
      && StrictlyAscending(tier2) && Enumerates(tier2, EdgeIncident(adj, s) - s)
      && StrictlyAscending(tier3) && Enumerates(tier3, AllCandidates(adj, s, hops) - s - EdgeIncident(adj, s))
      && selected == ordered[..if maxNodes < |ordered| then maxNodes else |ordered|]
      && sub == Graph(KnownNodes(nodes, selected), EdgesWithin(edges, selected))
    }

    /** `subgraph_from_markers`: the selected ids are the anchors in some order, then
        their edge endpoints ascending, then the rest of the neighbourhood ascending,
        cut at `maxNodes`; the result holds the known selected nodes and the edges
        between selected ids. */
    method SubgraphFromMarkers(markerIds: seq<string>, hops: nat, maxNodes: nat)
      returns (sub: Graph, ghost tier1: seq<string>, ghost tier2: seq<string>,
               ghost tier3: seq<string>, ghost selected: seq<string>)
      requires Valid()
      ensures Selection(markerIds, hops, maxNodes, tier1, tier2, tier3, selected, sub)
      ensures |sub.nodes| <= maxNodes
      ensures forall i :: 0 <= i < |sub.nodes| ==> sub.nodes[i].id in nodes && nodes[sub.nodes[i].id] == sub.nodes[i]
      ensures forall i :: 0 <= i < |sub.edges| ==> sub.edges[i] in edges
    {
      var markerSet := MarkerSet(markerIds);
      var priority1 := ListOfSet(markerSet);
      var edgeIncident: set<string> := {};
      var todo := markerSet;
      while todo != {}
        invariant todo <= markerSet
        invariant edgeIncident == EdgeIncident(adj, markerSet - todo)
        decreases todo
      {
        var m :| m in todo;
        edgeIncident := AddEnds(edgeIncident, Lookup(adj, m));
        EdgeIncidentAdd(adj, markerSet - todo, m);
        assert markerSet - (todo - {m}) == (markerSet - todo) + {m};
        todo := todo - {m};
      }
      var priority2 := SortSet(edgeIncident - markerSet);
      var all2hop := markerSet + edgeIncident;
      todo := markerSet;
      while todo != {}
        invariant todo <= markerSet
        invariant all2hop == markerSet + edgeIncident + NeighborsOfAll(adj, markerSet - todo, hops)
        decreases todo
      {
        var m :| m in todo;
        var neighbors := GetNeighbors(m, hops);
        NeighborsOfAllAdd(adj, markerSet - todo, m, hops);
        all2hop := all2hop + neighbors;
        assert markerSet - (todo - {m}) == (markerSet - todo) + {m};
        todo := todo - {m};
      }
      var remainder := SortSet(all2hop - markerSet - edgeIncident);
      var ordered := priority1 + priority2 + remainder;
      var allNodes := ordered[..if maxNodes < |ordered| then maxNodes else |ordered|];
      sub := Graph(KnownNodes(nodes, allNodes), EdgesWithin(edges, allNodes));
      tier1, tier2, tier3, selected := priority1, priority2, remainder, allNodes;
    }

    /** The selection never exceeds `maxNodes` ids and never repeats one. */
    lemma SelectionBounded(
      markerIds: seq<string>, hops: nat, maxNodes: nat,
      tier1: seq<string>, tier2: seq<string>, tier3: seq<string>, selected: seq<string>, sub: Graph)
      requires Valid()
      requires Selection(markerIds, hops, maxNodes, tier1, tier2, tier3, selected, sub)
      ensures |selected| <= maxNodes
      ensures forall i, j :: 0 <= i < j < |selected| ==> selected[i] != selected[j]
    {
      var s := MarkerSet(markerIds);
      var ordered := tier1 + tier2 + tier3;
      forall i, j | 0 <= i < j < |ordered| ensures ordered[i] != ordered[j] {
        assert i < |tier1| ==> ordered[i] == tier1[i] && tier1[i] in tier1;
        assert |tier1| <= i < |tier1| + |tier2| ==> ordered[i] == tier2[i - |tier1|] && tier2[i - |tier1|] in tier2;
        assert |tier1| + |tier2| <= i ==> ordered[i] == tier3[i - |tier1| - |tier2|] && tier3[i - |tier1| - |tier2|] in tier3;
        assert j < |tier1| ==> ordered[j] == tier1[j] && tier1[j] in tier1;
        assert |tier1| <= j < |tier1| + |tier2| ==> ordered[j] == tier2[j - |tier1|] && tier2[j - |tier1|] in tier2;
        assert |tier1| + |tier2| <= j ==> ordered[j] == tier3[j - |tier1| - |tier2|] && tier3[j - |tier1| - |tier2|] in tier3;
        if i < |tier1| && j >= |tier1| {
          assert ordered[i] in s;
          if j < |tier1| + |tier2| {
            assert ordered[j] == tier2[j - |tier1|];
          } else {
            assert ordered[j] == tier3[j - |tier1| - |tier2|];
          }
        } else if |tier1| <= i < |tier1| + |tier2| && j >= |tier1| + |tier2| {
          assert ordered[i] == tier2[i - |tier1|];
          assert ordered[j] == tier3[j - |tier1| - |tier2|];
        } else if i >= |tier1| + |tier2| {
          assert ordered[i] == tier3[i - |tier1| - |tier2|];
          assert ordered[j] == tier3[j - |tier1| - |tier2|];
        } else if j < |tier1| {
          assert ordered[i] == tier1[i] && ordered[j] == tier1[j];
        } else {
          assert ordered[i] == tier2[i - |tier1|] && ordered[j] == tier2[j - |tier1|];
        }
      }
    }

    /** Every known anchor survives the cut when there are at most `maxNodes` of
        them, and the anchors come first. */
    lemma AnchorsSurvive(
      markerIds: seq<string>, hops: nat, maxNodes: nat,
      tier1: seq<string>, tier2: seq<string>, tier3: seq<string>, selected: seq<string>, sub: Graph)
      requires Valid()
      requires Selection(markerIds, hops, maxNodes, tier1, tier2, tier3, selected, sub)
      requires |tier1| <= maxNodes
      ensures selected[..|tier1|] == tier1
      ensures forall a :: a in markerIds && a in nodes ==> a in selected
    {
      var ordered := tier1 + tier2 + tier3;
      assert selected[..|tier1|] == ordered[..|tier1|] == tier1;
      forall a | a in markerIds && a in nodes ensures a in selected {
        var i :| 0 <= i < |tier1| && tier1[i] == a;
        assert selected[i] == selected[..|tier1|][i] == a;
      }
    }

    /** An anchor id that names no node is dropped, and every returned node is a
        known node whose id was selected. */
    lemma SelectedNodesAreKnown(
      markerIds: seq<string>, hops: nat, maxNodes: nat,
      tier1: seq<string>, tier2: seq<string>, tier3: seq<string>, selected: seq<string>, sub: Graph)
      requires Valid()
      requires Selection(markerIds, hops, maxNodes, tier1, tier2, tier3, selected, sub)
      ensures forall a :: a in tier1 ==> a in markerIds && a in nodes
      ensures forall i :: 0 <= i < |sub.nodes| ==> sub.nodes[i].id in nodes && nodes[sub.nodes[i].id] == sub.nodes[i]
      ensures forall i :: 0 <= i < |sub.nodes| ==> sub.nodes[i].id in selected
    {
      forall i | 0 <= i < |sub.nodes| ensures sub.nodes[i].id in selected {
        KnownNodesFromIds(nodes, selected, i);
      }
    }

    /** The returned edges are exactly the static edges joining two selected ids. */
    lemma SelectedEdgesExact(
      markerIds: seq<string>, hops: nat, maxNodes: nat,
      tier1: seq<string>, tier2: seq<string>, tier3: seq<string>, selected: seq<string>, sub: Graph, e: Edge)
      requires Valid()
      requires Selection(markerIds, hops, maxNodes, tier1, tier2, tier3, selected, sub)
      ensures e in sub.edges <==> e in edges && e.from in selected && e.to in selected
    {
      if e in edges && e.from in selected && e.to in selected {
        EdgesWithinComplete(edges, selected, e);
      }
    }

    /** With two hops the neighbours of an anchor are its edge endpoints, so the
        third tier is empty: anchors plus their direct neighbours. */
    lemma TwoHopsHaveNoRemainder(
      markerIds: seq<string>, maxNodes: nat,
      tier1: seq<string>, tier2: seq<string>, tier3: seq<string>, selected: seq<string>, sub: Graph)
      requires Valid()
      requires Selection(markerIds, 2, maxNodes, tier1, tier2, tier3, selected, sub)
      ensures tier3 == []
    {
      var s := MarkerSet(markerIds);
      forall x | x in NeighborsOfAll(adj, s, 2) ensures x in EdgeIncident(adj, s) {
        var m :| m in s && x in Neighbors(adj, m, 2);
        assert Ball(adj, m, 1) == {m} + Expand(adj, {m});
        OthersInEnds(Lookup(adj, m), m, x);
      }
      assert AllCandidates(adj, s, 2) - s - EdgeIncident(adj, s) == {};
      EnumerationLength(tier3, {});
    }

    /** `explain_edge`: the first edge with the given id, or nothing. */
    method ExplainEdge(edgeId: string) returns (r: Option<Edge>)
      ensures r.None? <==> forall i :: 0 <= i < |edges| ==> edges[i].id != edgeId
      ensures r.Some? ==> exists i :: 0 <= i < |edges| && edges[i] == r.value && edgeId == r.value.id
                                       && forall j :: 0 <= j < i ==> edges[j].id != edgeId
    {
      for i := 0 to |edges|
        invariant forall j :: 0 <= j < i ==> edges[j].id != edgeId
      {
        if edges[i].id == edgeId {
          return Some(edges[i]);
        }
      }
      return None;
    }
  }
}
