/** Dynamic extension of a subgraph: abnormal-marker node ids the subgraph lacks
    get synthetic Marker nodes, and configured rules give them synthetic edges
    toward patterns that are both signalled and already in the subgraph. */
module DynamicGraph {
  import opened Strings
  import opened Graph
  import opened ContextSelector
  import opened Seqs

  /** One configured edge rule of a marker; a missing field is "". */
  datatype Rule = Rule(patternId: string, relation: string, rationale: string)

  /** An appended edge as proposed for review: the edge without its id. */
  datatype EdgeSuggestion = EdgeSuggestion(from: string, to: string, relation: string, rationale: string)

  datatype Additions = Additions(nodes: seq<Node>, edges: seq<EdgeSuggestion>)

  // -------------------------------------------------------------- node ids

  /** The card's node ids not yet in the subgraph, in card order (repeats kept). */
  function DynamicIds(cardIds: seq<string>, present: set<string>): (r: seq<string>)
    ensures forall x :: x in r <==> x in cardIds && x !in present
  {
    if cardIds == [] then []
    else
      var init, last := cardIds[..|cardIds| - 1], cardIds[|cardIds| - 1];
      assert cardIds == init + [last];
      DynamicIds(init, present) + (if last !in present then [last] else [])
  }

  lemma {:induction false} NoneMissing(cardIds: seq<string>, present: set<string>)
    requires forall x :: x in cardIds ==> x in present
    ensures DynamicIds(cardIds, present) == []
  {
    if cardIds != [] {
      var init := cardIds[..|cardIds| - 1];
      assert forall x :: x in init ==> x in cardIds;
      NoneMissing(init, present);
    }
  }

  function Elements(s: seq<string>): (r: set<string>)
    ensures forall x :: x in r <==> x in s
  {
    set x | x in s
  }

  /** `{default_id(m): m for m in markers}`: a later marker with the same id wins. */
  function MarkerLabels(markers: seq<string>): (t: map<string, string>)
    ensures forall m :: m in markers ==> DefaultNodeId(m) in t
    ensures forall k :: k in t ==> t[k] in markers && DefaultNodeId(t[k]) == k
  {
    if markers == [] then map[]
    else
      var init, last := markers[..|markers| - 1], markers[|markers| - 1];
      assert markers == init + [last];
      MarkerLabels(init)[DefaultNodeId(last) := last]
  }

  /** The label of a dynamic node: the abnormal marker whose default id it is,
      or else the id itself. */
  function LabelFor(nodeId: string, labels: map<string, string>): string {
    if nodeId in labels then labels[nodeId] else nodeId
  }

  /** The label is a marker of the card whose default id is `nodeId` when there
      is one, and `nodeId` itself when there is none. */
  lemma LabelForMarkers(nodeId: string, markers: seq<string>)
    ensures (exists m :: m in markers && DefaultNodeId(m) == nodeId) ==>
      var l := LabelFor(nodeId, MarkerLabels(markers)); l in markers && DefaultNodeId(l) == nodeId
    ensures (forall m :: m in markers ==> DefaultNodeId(m) != nodeId) ==>
      LabelFor(nodeId, MarkerLabels(markers)) == nodeId
  {
  }

  function NewNode(nodeId: string, labels: map<string, string>): Node {
    Node(nodeId, "Marker", LabelFor(nodeId, labels), true)
  }

  function NewNodes(dyn: seq<string>, labels: map<string, string>): (ns: seq<Node>)
    ensures |ns| == |dyn|
    ensures forall i :: 0 <= i < |dyn| ==> ns[i] == NewNode(dyn[i], labels)
  {
    if dyn == [] then [] else NewNodes(dyn[..|dyn| - 1], labels) + [NewNode(dyn[|dyn| - 1], labels)]
  }

  // ---------------------------------------------------------------- edges

  /** `e_dyn_{m}_{p}_{n}` with the "m_" and "p_" prefixes removed everywhere in the ids. */
  function DynEdgeId(markerNodeId: string, patternId: string, n: nat): string {
    ("e_dyn_" + RemoveAll(markerNodeId, "m_") + "_" + RemoveAll(patternId, "p_")) + ['_'] + NatToString(n)
  }

  /** Edge ids with different counters differ, whatever the node and pattern ids. */
  lemma DynEdgeIdsDiffer(m1: string, p1: string, n1: nat, m2: string, p2: string, n2: nat)
    requires n1 != n2
    ensures DynEdgeId(m1, p1, n1) != DynEdgeId(m2, p2, n2)
  {
    if DynEdgeId(m1, p1, n1) == DynEdgeId(m2, p2, n2) {
      NatToStringHasNo(n1, '_');
      NatToStringHasNo(n2, '_');
      SameTailAfterLastSeparator(
        "e_dyn_" + RemoveAll(m1, "m_") + "_" + RemoveAll(p1, "p_"), NatToString(n1),
        "e_dyn_" + RemoveAll(m2, "m_") + "_" + RemoveAll(p2, "p_"), NatToString(n2), '_');
      NatToStringInjective(n1, n2);
    }
  }

  /** `config.get(markerName) or config.get(node_id) or []`. */
  function RulesFor(config: map<string, seq<Rule>>, markerName: string, nodeId: string): seq<Rule> {
    if markerName in config && config[markerName] != [] then config[markerName]
    else if nodeId in config && config[nodeId] != [] then config[nodeId]
    else []
  }

  /** A rule yields an edge when its pattern is non-empty, signalled and already a node id. */
  predicate Accepts(rule: Rule, signals: seq<string>, ids: set<string>) {
    rule.patternId != "" && rule.patternId in signals && rule.patternId in ids
  }

  function RelationOf(rule: Rule): string {
    if rule.relation != "" then rule.relation else "SUPPORTS"
  }

  /** The edges the rules of one dynamic node yield, numbered on from `counter`. */
  function RuleEdges(nodeId: string, rules: seq<Rule>, signals: seq<string>, ids: set<string>, counter: nat): (es: seq<Edge>)
    ensures |es| <= |rules|
    ensures forall k :: 0 <= k < |es| ==>
      && es[k].from == nodeId
      && es[k].to != "" && es[k].to in signals && es[k].to in ids
      && es[k].id == DynEdgeId(nodeId, es[k].to, counter + k + 1)
    ensures forall k :: 0 <= k < |es| ==>
      exists r :: r in rules && Accepts(r, signals, ids) && es[k].to == r.patternId
        && es[k].relation == RelationOf(r) && es[k].rationale == r.rationale
  {
    if rules == [] then []
    else
      var init, r := rules[..|rules| - 1], rules[|rules| - 1];
      var prev := RuleEdges(nodeId, init, signals, ids, counter);
      assert forall x :: x in init ==> x in rules;
      prev + (if Accepts(r, signals, ids)
              then [Edge(DynEdgeId(nodeId, r.patternId, counter + |prev| + 1), nodeId, r.patternId, RelationOf(r), r.rationale)]
              else [])
  }

  /** All dynamic edges of one call, node by node, numbered 1, 2, … . A node's
      rules see the subgraph's ids plus the dynamic nodes added so far, itself included. */
  function DynEdges(dyn: seq<string>, labels: map<string, string>, config: map<string, seq<Rule>>,
                    signals: seq<string>, ids: set<string>): (es: seq<Edge>)
    ensures forall k :: 0 <= k < |es| ==>
      && es[k].from in dyn
      && es[k].to != "" && es[k].to in signals && es[k].to in ids + Elements(dyn)
      && es[k].id == DynEdgeId(es[k].from, es[k].to, k + 1)
  {
    if dyn == [] then []
    else
      var init, nid := dyn[..|dyn| - 1], dyn[|dyn| - 1];
      assert dyn == init + [nid];
      var prev := DynEdges(init, labels, config, signals, ids);
      prev + RuleEdges(nid, RulesFor(config, LabelFor(nid, labels), nid), signals, ids + Elements(dyn), |prev|)
  }

  function Describe(e: Edge): EdgeSuggestion {
    EdgeSuggestion(e.from, e.to, e.relation, e.rationale)
  }

  function DescribeAll(es: seq<Edge>): (ds: seq<EdgeSuggestion>)
    ensures |ds| == |es|
    ensures forall k :: 0 <= k < |es| ==> ds[k] == Describe(es[k])
  {
    if es == [] then [] else DescribeAll(es[..|es| - 1]) + [Describe(es[|es| - 1])]
  }

  /** Ids created within one call are pairwise distinct. */
  lemma DynEdgeIdsDistinct(dyn: seq<string>, labels: map<string, string>, config: map<string, seq<Rule>>,
                           signals: seq<string>, ids: set<string>, i: nat, j: nat)
    requires i < j < |DynEdges(dyn, labels, config, signals, ids)|
    ensures DynEdges(dyn, labels, config, signals, ids)[i].id != DynEdges(dyn, labels, config, signals, ids)[j].id
  {
    var es := DynEdges(dyn, labels, config, signals, ids);
    DynEdgeIdsDiffer(es[i].from, es[i].to, i + 1, es[j].from, es[j].to, j + 1);
  }

  // ------------------------------------------------------------ extension

  function Dyn(card: CaseCard, subgraph: Graph): seq<string> {
    DynamicIds(card.abnormalMarkerNodeIds, NodeIds(subgraph.nodes))
  }

  /** The appended nodes of `extend_subgraph`. */
  function ExtendedNodes(card: CaseCard, subgraph: Graph): seq<Node> {
    NewNodes(Dyn(card, subgraph), MarkerLabels(card.abnormalMarkers))
  }

  /** The appended edges of `extend_subgraph`. */
  function ExtendedEdges(card: CaseCard, subgraph: Graph, config: map<string, seq<Rule>>): seq<Edge> {
    DynEdges(Dyn(card, subgraph), MarkerLabels(card.abnormalMarkers), config, card.signals, NodeIds(subgraph.nodes))
  }

  lemma RuleEdgesStep(nodeId: string, rules: seq<Rule>, signals: seq<string>, ids: set<string>, counter: nat, j: nat)
    requires j < |rules|
    ensures var prev := RuleEdges(nodeId, rules[..j], signals, ids, counter);
      var r := rules[j];
      RuleEdges(nodeId, rules[..j + 1], signals, ids, counter) ==
        prev + (if Accepts(r, signals, ids)
                then [Edge(DynEdgeId(nodeId, r.patternId, counter + |prev| + 1), nodeId, r.patternId, RelationOf(r), r.rationale)]
                else [])
  {
    assert rules[..j + 1][..j] == rules[..j];
  }

  lemma DescribeAppend(a: seq<Edge>, b: seq<Edge>)
    ensures DescribeAll(a + b) == DescribeAll(a) + DescribeAll(b)
  {
  }

  lemma DynStep(dyn: seq<string>, labels: map<string, string>, config: map<string, seq<Rule>>,
                signals: seq<string>, ids: set<string>, i: nat)
    requires i < |dyn|
    ensures Elements(dyn[..i + 1]) == Elements(dyn[..i]) + {dyn[i]}
    ensures NewNodes(dyn[..i + 1], labels) == NewNodes(dyn[..i], labels) + [NewNode(dyn[i], labels)]
    ensures var prev := DynEdges(dyn[..i], labels, config, signals, ids);
      DynEdges(dyn[..i + 1], labels, config, signals, ids) ==
        prev + RuleEdges(dyn[i], RulesFor(config, LabelFor(dyn[i], labels), dyn[i]), signals,
                         ids + Elements(dyn[..i + 1]), |prev|)
  {
    assert dyn[..i + 1][..i] == dyn[..i];
    assert dyn[..i + 1] == dyn[..i] + [dyn[i]];
  }

  /** The edge lists and counter after the first `j` rules of one dynamic node. */
  ghost predicate RulesScanned(nodeId: string, rules: seq<Rule>, j: nat, signals: seq<string>, ids: set<string>, counter0: nat,
                               edges0: seq<Edge>, suggested0: seq<EdgeSuggestion>,
                               edges: seq<Edge>, suggested: seq<EdgeSuggestion>, counter: nat)
    requires j <= |rules|
  {
    var made := RuleEdges(nodeId, rules[..j], signals, ids, counter0);
    && edges == edges0 + made
    && suggested == suggested0 + DescribeAll(made)
    && counter == counter0 + |made|
  }

  lemma RulesScannedSkip(nodeId: string, rules: seq<Rule>, j: nat, signals: seq<string>, ids: set<string>, counter0: nat,
                         edges0: seq<Edge>, suggested0: seq<EdgeSuggestion>,
                         edges: seq<Edge>, suggested: seq<EdgeSuggestion>, counter: nat)
    requires j < |rules| && !Accepts(rules[j], signals, ids)
    requires RulesScanned(nodeId, rules, j, signals, ids, counter0, edges0, suggested0, edges, suggested, counter)
    ensures RulesScanned(nodeId, rules, j + 1, signals, ids, counter0, edges0, suggested0, edges, suggested, counter)
  {
    RuleEdgesStep(nodeId, rules, signals, ids, counter0, j);
    var made := RuleEdges(nodeId, rules[..j], signals, ids, counter0);
    assert made + [] == made;
  }

  lemma RulesScannedAdd(nodeId: string, rules: seq<Rule>, j: nat, signals: seq<string>, ids: set<string>, counter0: nat,
                        edges0: seq<Edge>, suggested0: seq<EdgeSuggestion>,
                        edges: seq<Edge>, suggested: seq<EdgeSuggestion>, counter: nat, e: Edge)
    requires j < |rules| && Accepts(rules[j], signals, ids)
    requires RulesScanned(nodeId, rules, j, signals, ids, counter0, edges0, suggested0, edges, suggested, counter)
    requires e == Edge(DynEdgeId(nodeId, rules[j].patternId, counter + 1), nodeId, rules[j].patternId, RelationOf(rules[j]), rules[j].rationale)
    ensures RulesScanned(nodeId, rules, j + 1, signals, ids, counter0, edges0, suggested0, edges + [e], suggested + [Describe(e)], counter + 1)
  {
    RuleEdgesStep(nodeId, rules, signals, ids, counter0, j);
    var made := RuleEdges(nodeId, rules[..j], signals, ids, counter0);
    assert RuleEdges(nodeId, rules[..j + 1], signals, ids, counter0) == made + [e];
    AppendOne(edges0, made, e);
    DescribeAppend(made, [e]);
    AppendOne(suggested0, DescribeAll(made), Describe(e));
  }

  /** The rules loop of one dynamic node. */
  method AddRuleEdges(nodeId: string, rules: seq<Rule>, signals: seq<string>, ids: set<string>, counter0: nat,
                      edges0: seq<Edge>, suggested0: seq<EdgeSuggestion>)
    returns (edges: seq<Edge>, suggested: seq<EdgeSuggestion>, counter: nat)
    ensures edges == edges0 + RuleEdges(nodeId, rules, signals, ids, counter0)
    ensures suggested == suggested0 + DescribeAll(RuleEdges(nodeId, rules, signals, ids, counter0))
    ensures counter == counter0 + |RuleEdges(nodeId, rules, signals, ids, counter0)|
  {
    edges, suggested, counter := edges0, suggested0, counter0;
    for j := 0 to |rules|
      invariant RulesScanned(nodeId, rules, j, signals, ids, counter0, edges0, suggested0, edges, suggested, counter)
    {
      var rule := rules[j];
      if rule.patternId == "" || rule.patternId !in signals {
        RulesScannedSkip(nodeId, rules, j, signals, ids, counter0, edges0, suggested0, edges, suggested, counter);
        continue;
      }
      if rule.patternId !in ids {
        RulesScannedSkip(nodeId, rules, j, signals, ids, counter0, edges0, suggested0, edges, suggested, counter);
        continue;
      }
      var relation := if rule.relation != "" then rule.relation else "SUPPORTS";
      var e := Edge(DynEdgeId(nodeId, rule.patternId, counter + 1), nodeId, rule.patternId, relation, rule.rationale);
      RulesScannedAdd(nodeId, rules, j, signals, ids, counter0, edges0, suggested0, edges, suggested, counter, e);
      counter := counter + 1;
      edges := edges + [e];
      suggested := suggested + [Describe(e)];
    }
    assert rules[..|rules|] == rules;
  }

  /** One pass of the outer loop: append the node for `nodeId`, record it as
      present, and append the edges its rules allow. */
  method AddDynamicNode(nodeId: string, labels: map<string, string>, config: map<string, seq<Rule>>, signals: seq<string>,
                        ids0: set<string>, counter0: nat,
                        nodes0: seq<Node>, suggestedNodes0: seq<Node>, edges0: seq<Edge>, suggestedEdges0: seq<EdgeSuggestion>)
    returns (ids: set<string>, counter: nat,
             nodes: seq<Node>, suggestedNodes: seq<Node>, edges: seq<Edge>, suggestedEdges: seq<EdgeSuggestion>)
    ensures ids == ids0 + {nodeId}
    ensures nodes == nodes0 + [NewNode(nodeId, labels)]
    ensures suggestedNodes == suggestedNodes0 + [NewNode(nodeId, labels)]
    ensures var added := RuleEdges(nodeId, RulesFor(config, LabelFor(nodeId, labels), nodeId), signals, ids, counter0);
      && edges == edges0 + added
      && suggestedEdges == suggestedEdges0 + DescribeAll(added)
      && counter == counter0 + |added|
  {
    var node := Node(nodeId, "Marker", LabelFor(nodeId, labels), true);
    nodes := nodes0 + [node];
    suggestedNodes := suggestedNodes0 + [node];
    ids := ids0 + {nodeId};
    var rules := RulesFor(config, node.nodeLabel, nodeId);
    edges, suggestedEdges, counter := AddRuleEdges(nodeId, rules, signals, ids, counter0, edges0, suggestedEdges0);
  }

  /** The nodes and ids of `extend_subgraph` after the first `i` dynamic ids. */
  ghost predicate NodesExtended(dyn: seq<string>, i: nat, labels: map<string, string>, subgraph: Graph,
                                ids: set<string>, nodes: seq<Node>, suggestedNodes: seq<Node>)
    requires i <= |dyn|
  {
    && suggestedNodes == NewNodes(dyn[..i], labels)
    && nodes == subgraph.nodes + suggestedNodes
    && ids == NodeIds(subgraph.nodes) + Elements(dyn[..i])
  }

  /** The edges and counter of `extend_subgraph` after the first `i` dynamic ids. */
  ghost predicate EdgesExtended(dyn: seq<string>, i: nat, labels: map<string, string>, config: map<string, seq<Rule>>,
                                signals: seq<string>, subgraph: Graph,
                                counter: nat, edges: seq<Edge>, suggestedEdges: seq<EdgeSuggestion>)
    requires i <= |dyn|
  {
    var made := DynEdges(dyn[..i], labels, config, signals, NodeIds(subgraph.nodes));
    && edges == subgraph.edges + made
    && suggestedEdges == DescribeAll(made)
    && counter == |made|
  }

  lemma NodesExtendedStep(dyn: seq<string>, i: nat, labels: map<string, string>, subgraph: Graph,
                          ids: set<string>, nodes: seq<Node>, suggestedNodes: seq<Node>)
    requires i < |dyn|
    requires NodesExtended(dyn, i, labels, subgraph, ids, nodes, suggestedNodes)
    ensures NodesExtended(dyn, i + 1, labels, subgraph, ids + {dyn[i]},
                          nodes + [NewNode(dyn[i], labels)], suggestedNodes + [NewNode(dyn[i], labels)])
    ensures ids + {dyn[i]} == NodeIds(subgraph.nodes) + Elements(dyn[..i + 1])
  {
    assert dyn[..i + 1][..i] == dyn[..i];
    assert dyn[..i + 1] == dyn[..i] + [dyn[i]];
    AppendOne(subgraph.nodes, suggestedNodes, NewNode(dyn[i], labels));
  }

  lemma EdgesExtendedStep(dyn: seq<string>, i: nat, labels: map<string, string>, config: map<string, seq<Rule>>,
                          signals: seq<string>, subgraph: Graph,
                          counter: nat, edges: seq<Edge>, suggestedEdges: seq<EdgeSuggestion>)
    requires i < |dyn|
    requires EdgesExtended(dyn, i, labels, config, signals, subgraph, counter, edges, suggestedEdges)
    ensures var added := RuleEdges(dyn[i], RulesFor(config, LabelFor(dyn[i], labels), dyn[i]), signals,
                                   NodeIds(subgraph.nodes) + Elements(dyn[..i + 1]), counter);
      EdgesExtended(dyn, i + 1, labels, config, signals, subgraph,
                    counter + |added|, edges + added, suggestedEdges + DescribeAll(added))
  {
    var ids0 := NodeIds(subgraph.nodes);
    DynStep(dyn, labels, config, signals, ids0, i);
    var made := DynEdges(dyn[..i], labels, config, signals, ids0);
    var added := RuleEdges(dyn[i], RulesFor(config, LabelFor(dyn[i], labels), dyn[i]), signals, ids0 + Elements(dyn[..i + 1]), counter);
    AppendSeq(subgraph.edges, made, added);
    DescribeAppend(made, added);
  }

  /** One pass of the outer loop of `extend_subgraph`, with the loop state
      described after `i` and after `i + 1` dynamic ids. */
  method ExtendStep(dyn: seq<string>, i: nat, labels: map<string, string>, config: map<string, seq<Rule>>,
                    signals: seq<string>, subgraph: Graph,
                    ids0: set<string>, counter0: nat, nodes0: seq<Node>, suggestedNodes0: seq<Node>,
                    edges0: seq<Edge>, suggestedEdges0: seq<EdgeSuggestion>)
    returns (ids: set<string>, counter: nat, nodes: seq<Node>, suggestedNodes: seq<Node>,
             edges: seq<Edge>, suggestedEdges: seq<EdgeSuggestion>)
    requires i < |dyn|
    requires NodesExtended(dyn, i, labels, subgraph, ids0, nodes0, suggestedNodes0)
    requires EdgesExtended(dyn, i, labels, config, signals, subgraph, counter0, edges0, suggestedEdges0)
    ensures NodesExtended(dyn, i + 1, labels, subgraph, ids, nodes, suggestedNodes)
    ensures EdgesExtended(dyn, i + 1, labels, config, signals, subgraph, counter, edges, suggestedEdges)
  {
    NodesExtendedStep(dyn, i, labels, subgraph, ids0, nodes0, suggestedNodes0);
    EdgesExtendedStep(dyn, i, labels, config, signals, subgraph, counter0, edges0, suggestedEdges0);
    ids, counter, nodes, suggestedNodes, edges, suggestedEdges :=
      AddDynamicNode(dyn[i], labels, config, signals, ids0, counter0, nodes0, suggestedNodes0, edges0, suggestedEdges0);
  }

  /** The outer loop of `extend_subgraph` over the dynamic ids `dyn`. */
  method ExtendAll(dyn: seq<string>, labels: map<string, string>, config: map<string, seq<Rule>>,
                   signals: seq<string>, subgraph: Graph)
    returns (nodes: seq<Node>, suggestedNodes: seq<Node>, edges: seq<Edge>, suggestedEdges: seq<EdgeSuggestion>)
    ensures suggestedNodes == NewNodes(dyn, labels) && nodes == subgraph.nodes + suggestedNodes
    ensures var made := DynEdges(dyn, labels, config, signals, NodeIds(subgraph.nodes));
      edges == subgraph.edges + made && suggestedEdges == DescribeAll(made)
  {
    var ids := NodeIds(subgraph.nodes);
    nodes, edges := subgraph.nodes, subgraph.edges;
    suggestedNodes, suggestedEdges := [], [];
    var counter: nat := 0;
    assert Elements(dyn[..0]) == {};
    for i := 0 to |dyn|
      invariant NodesExtended(dyn, i, labels, subgraph, ids, nodes, suggestedNodes)
      invariant EdgesExtended(dyn, i, labels, config, signals, subgraph, counter, edges, suggestedEdges)
    {
      ids, counter, nodes, suggestedNodes, edges, suggestedEdges :=
        ExtendStep(dyn, i, labels, config, signals, subgraph, ids, counter, nodes, suggestedNodes, edges, suggestedEdges);
    }
    assert dyn[..|dyn|] == dyn;
  }

  /** `extend_subgraph`: appends a Marker node per missing card id and the edges
      its rules allow, and reports both as suggested additions; when no card id
      is missing the subgraph comes back as it was. */
  method ExtendSubgraph(card: CaseCard, subgraph: Graph, config: map<string, seq<Rule>>)
    returns (extended: Graph, additions: Additions)
    ensures extended.nodes == subgraph.nodes + ExtendedNodes(card, subgraph)
    ensures extended.edges == subgraph.edges + ExtendedEdges(card, subgraph, config)
    ensures additions == Additions(ExtendedNodes(card, subgraph), DescribeAll(ExtendedEdges(card, subgraph, config)))
    ensures Dyn(card, subgraph) == [] ==> extended == subgraph && additions == Additions([], [])
  {
    var ids := NodeIds(subgraph.nodes);
    var labels := MarkerLabels(card.abnormalMarkers);
    var dyn := DynamicIds(card.abnormalMarkerNodeIds, ids);
    if dyn == [] {
      return subgraph, Additions([], []);
    }
    var nodes, suggestedNodes, edges, suggestedEdges := ExtendAll(dyn, labels, config, card.signals, subgraph);
    extended := Graph(nodes, edges);
    additions := Additions(suggestedNodes, suggestedEdges);
  }

  /** Extending twice adds nothing the second time: every card id is a node of
      the extended subgraph. */
  lemma SecondExtensionAddsNothing(card: CaseCard, subgraph: Graph, config: map<string, seq<Rule>>)
    ensures Dyn(card, Graph(subgraph.nodes + ExtendedNodes(card, subgraph), subgraph.edges + ExtendedEdges(card, subgraph, config))) == []
  {
    var nodes := subgraph.nodes + ExtendedNodes(card, subgraph);
    var dyn := Dyn(card, subgraph);
    forall x | x in card.abnormalMarkerNodeIds ensures x in NodeIds(nodes) {
      if x !in NodeIds(subgraph.nodes) {
        assert x in dyn;
        var i :| 0 <= i < |dyn| && dyn[i] == x;
        assert nodes[|subgraph.nodes| + i].id == x;
      } else {
        var i :| 0 <= i < |subgraph.nodes| && subgraph.nodes[i].id == x;
        assert nodes[i].id == x;
      }
    }
    NoneMissing(card.abnormalMarkerNodeIds, NodeIds(nodes));
  }

  /** Every appended node is a dynamic Marker node for a card id missing from the subgraph. */
  lemma ExtendedNodesAreDynamicMarkers(card: CaseCard, subgraph: Graph, k: nat)
    requires k < |ExtendedNodes(card, subgraph)|
    ensures var n := ExtendedNodes(card, subgraph)[k];
      n.nodeType == "Marker" && n.isDynamic
      && n.id in card.abnormalMarkerNodeIds && n.id !in NodeIds(subgraph.nodes)
  {
    assert Dyn(card, subgraph)[k] in Dyn(card, subgraph);
  }
}
