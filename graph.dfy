/** The node and edge records shared by the knowledge graph, the dynamic
    extension and the symptom mapper. */
module Graph {
  import opened Strings

  /** A graph node: `isDynamic` is set on nodes added at run time. */
  datatype Node = Node(id: string, nodeType: string, nodeLabel: string, isDynamic: bool)

  /** A directed, labelled edge between two node ids. */
  datatype Edge = Edge(id: string, from: string, to: string, relation: string, rationale: string)

  /** A subgraph as the pipeline passes it on: nodes and edges in order. */
  datatype Graph = Graph(nodes: seq<Node>, edges: seq<Edge>)

  /** The ids of a list of nodes, as a set. */
  function NodeIds(nodes: seq<Node>): (ids: set<string>)
    ensures forall i :: 0 <= i < |nodes| ==> nodes[i].id in ids
    ensures forall x :: x in ids ==> exists i :: 0 <= i < |nodes| && nodes[i].id == x
  {
    set i | 0 <= i < |nodes| :: nodes[i].id
  }

  /** The default node id of a marker name: `m_` + lowercase, spaces turned to `_`. */
  function DefaultNodeId(marker: string): (nid: string)
    ensures |nid| == 2 + |marker|
    ensures nid[..2] == "m_" && ' ' !in nid
    ensures forall i :: 0 <= i < |marker| ==> nid[2 + i] == if marker[i] == ' ' then '_' else LowerChar(marker[i])
  {
    "m_" + ReplaceChar(Lower(marker), ' ', '_')
  }

  /** The marker "ANC" gets the node id "m_anc", and "Vitamin D" gets "m_vitamin_d". */
  lemma DefaultNodeIdExamples()
    ensures DefaultNodeId("ANC") == "m_anc"
    ensures DefaultNodeId("Vitamin D") == "m_vitamin_d"
  {
    var a := DefaultNodeId("ANC");
    assert a[2] == 'a' && a[3] == 'n' && a[4] == 'c';
    var v := DefaultNodeId("Vitamin D");
    assert v[2] == 'v' && v[9] == '_' && v[10] == 'd';
  }
}
