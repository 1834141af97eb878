/** Evidence scoring: each abnormal marker's edges to a signalled pattern become
    evidence items with a rule weight; every signalled pattern starts at 0.5,
    gains the weight of supporting items, loses that of contradicting ones, and
    is finally clamped to [0, 1]; the five heaviest items are kept as top
    discriminators. */
module EvidenceBuilder {
  import opened Wrappers
  import opened Strings
  import opened Sorting
  import opened Graph
  import opened LabNormalizer
  import opened ContextSelector
  import opened Seqs

  // ------------------------------------------------------------ relations

  /** A causal relation read against the lab's direction: INCREASES supports a
      HIGH and contradicts a LOW value, DECREASES the other way round, and
      anything else gives "". */
  function InferSupportRelation(relation: string, status: Status): (r: string)
    ensures relation == "INCREASES" && status == HIGH ==> r == "SUPPORTS"
    ensures relation == "INCREASES" && status == LOW ==> r == "CONTRADICTS"
    ensures relation == "DECREASES" && status == LOW ==> r == "SUPPORTS"
    ensures relation == "DECREASES" && status == HIGH ==> r == "CONTRADICTS"
    ensures r != "" <==> (relation == "INCREASES" || relation == "DECREASES") && (status == HIGH || status == LOW)
  {
    if status != HIGH && status != LOW then ""
    else if relation == "INCREASES" then (if status == HIGH then "SUPPORTS" else "CONTRADICTS")
    else if relation == "DECREASES" then (if status == LOW then "SUPPORTS" else "CONTRADICTS")
    else ""
  }

  // -------------------------------------------------------------- weights

  /** `_coerce_weight`: numbers and booleans as themselves, a string through
      `float()` (the parameter `parseFloat`), anything else the default. */
  function CoerceWeight(value: Json, default: real, parseFloat: string -> Option<real>): (w: real)
    ensures value.JNum? ==> w == value.n
    ensures value.JBool? ==> w == (if value.b then 1.0 else 0.0)
    ensures (value.JNull? || value.JList? || value.JObj?) ==> w == default
    ensures value.JStr? ==> w == parseFloat(value.s).GetOr(default)
  {
    match value
    case JNum(n) => n
    case JBool(b) => if b then 1.0 else 0.0
    case JStr(s) => parseFloat(s).GetOr(default)
    case _ => default
  }

  function Pair(supports: real, contradicts: real): Json {
    JObj(map["SUPPORTS" := JNum(supports), "CONTRADICTS" := JNum(contradicts)])
  }

  /** The rule weight table: hsCRP keyed by relation, the others by status then relation. */
  const Weights: map<string, Json> := map[
    "hsCRP" := Pair(0.8, 0.0),
    "Ferritin" := JObj(map["HIGH" := Pair(0.7, 0.6), "LOW" := Pair(0.6, 0.7)]),
    "Iron" := JObj(map["LOW" := Pair(0.5, 0.4)]),
    "TSAT" := JObj(map["LOW" := Pair(0.4, 0.3)]),
    "Hb" := JObj(map["LOW" := Pair(0.3, 0.2)]),
    "RDW" := JObj(map["NORMAL" := Pair(0.2, 0.1)])]

  /** The rule branch of `get_evidence_weight`, looked up by the edge's own relation. */
  function RuleWeight(marker: string, status: Status, relation: string, parseFloat: string -> Option<real>): real {
    TableWeight(Weights, marker, status, relation, parseFloat)
  }

  /** The lookup of `get_evidence_weight` in a weight table `table`: the
      marker's entry, then the status's entry if there is one, then the
      relation's entry, coerced, with 0.1 wherever a key is missing. */
  function TableWeight(table: map<string, Json>, marker: string, status: Status, relation: string,
                       parseFloat: string -> Option<real>): real {
    var markerWeights := if marker in table then table[marker] else JObj(map[]);
    match markerWeights
    case JObj(mw) =>
      if StatusName(status) in mw then
        match mw[StatusName(status)]
        case JObj(sw) => CoerceWeight(if relation in sw then sw[relation] else JNum(0.1), 0.1, parseFloat)
        case other => CoerceWeight(other, 0.1, parseFloat)
      else CoerceWeight(if relation in mw then mw[relation] else JNum(0.1), 0.1, parseFloat)
    case _ => 0.1
  }

  /** A weight leaf: a number in [0, 0.8] under a SUPPORTS or CONTRADICTS key. */
  predicate Leaf(k: string, j: Json) {
    (k == "SUPPORTS" || k == "CONTRADICTS") && j.JNum? && 0.0 <= j.n <= 0.8
  }

  /** A relation table: leaves only. */
  predicate RelationTable(m: map<string, Json>) {
    forall k :: k in m ==> Leaf(k, m[k])
  }

  /** A marker entry: an object of leaves and of relation tables. */
  predicate MarkerEntry(j: Json) {
    j.JObj? && forall k :: k in j.fields ==> Leaf(k, j.fields[k]) || (j.fields[k].JObj? && RelationTable(j.fields[k].fields))
  }

  /** The table's entry for `marker`, spelled out. */
  lemma WeightsEntry(marker: string)
    ensures marker == "hsCRP" ==> marker in Weights && Weights[marker] == Pair(0.8, 0.0)
    ensures marker == "Ferritin" ==> marker in Weights && Weights[marker] == JObj(map["HIGH" := Pair(0.7, 0.6), "LOW" := Pair(0.6, 0.7)])
    ensures marker == "Iron" ==> marker in Weights && Weights[marker] == JObj(map["LOW" := Pair(0.5, 0.4)])
    ensures marker == "TSAT" ==> marker in Weights && Weights[marker] == JObj(map["LOW" := Pair(0.4, 0.3)])
    ensures marker == "Hb" ==> marker in Weights && Weights[marker] == JObj(map["LOW" := Pair(0.3, 0.2)])
    ensures marker == "RDW" ==> marker in Weights && Weights[marker] == JObj(map["NORMAL" := Pair(0.2, 0.1)])
    ensures marker in Weights ==> marker in {"hsCRP", "Ferritin", "Iron", "TSAT", "Hb", "RDW"}
  {
  }

  lemma PairIsRelationTable(supports: real, contradicts: real)
    requires 0.0 <= supports <= 0.8 && 0.0 <= contradicts <= 0.8
    ensures Pair(supports, contradicts).JObj? && RelationTable(Pair(supports, contradicts).fields)
    ensures MarkerEntry(Pair(supports, contradicts))
  {
  }

  lemma OneStatusEntry(status: string, supports: real, contradicts: real)
    requires 0.0 <= supports <= 0.8 && 0.0 <= contradicts <= 0.8
    ensures MarkerEntry(JObj(map[status := Pair(supports, contradicts)]))
  {
    PairIsRelationTable(supports, contradicts);
  }

  /** Every entry of the weight table has that shape. */
  lemma WeightsShaped(marker: string)
    requires marker in Weights
    ensures MarkerEntry(Weights[marker])
  {
    WeightsEntry(marker);
    if marker == "hsCRP" {
      PairIsRelationTable(0.8, 0.0);
    } else if marker == "Ferritin" {
      PairIsRelationTable(0.7, 0.6);
      PairIsRelationTable(0.6, 0.7);
    } else if marker == "Iron" {
      OneStatusEntry("LOW", 0.5, 0.4);
    } else if marker == "TSAT" {
      OneStatusEntry("LOW", 0.4, 0.3);
    } else if marker == "Hb" {
      OneStatusEntry("LOW", 0.3, 0.2);
    } else {
      OneStatusEntry("NORMAL", 0.2, 0.1);
    }
  }

  /** In a table of that shape, weights lie in [0, 0.8], and a relation other
      than SUPPORTS and CONTRADICTS weighs the default 0.1. */
  lemma TableWeightFacts(table: map<string, Json>, marker: string, status: Status, relation: string,
                         parseFloat: string -> Option<real>)
    requires marker in table ==> MarkerEntry(table[marker])
    ensures 0.0 <= TableWeight(table, marker, status, relation, parseFloat) <= 0.8
    ensures relation != "SUPPORTS" && relation != "CONTRADICTS" ==> TableWeight(table, marker, status, relation, parseFloat) == 0.1
  {
    if marker in table {
      var mw := table[marker].fields;
      var st := StatusName(status);
      assert st != "SUPPORTS" && st != "CONTRADICTS";
      if st in mw {
        assert mw[st].JObj? && RelationTable(mw[st].fields);
      }
    }
  }

  /** Only SUPPORTS and CONTRADICTS edges have table weights: every other relation,
      INCREASES and DECREASES included, weighs the default 0.1. */
  lemma CausalRelationsWeighDefault(marker: string, status: Status, relation: string, parseFloat: string -> Option<real>)
    requires relation != "SUPPORTS" && relation != "CONTRADICTS"
    ensures RuleWeight(marker, status, relation, parseFloat) == 0.1
  {
    if marker in Weights {
      WeightsShaped(marker);
    }
    TableWeightFacts(Weights, marker, status, relation, parseFloat);
  }

  /** Rule weights lie between 0 and 0.8. */
  lemma RuleWeightBounds(marker: string, status: Status, relation: string, parseFloat: string -> Option<real>)
    ensures 0.0 <= RuleWeight(marker, status, relation, parseFloat) <= 0.8
  {
    if marker in Weights {
      WeightsShaped(marker);
    }
    TableWeightFacts(Weights, marker, status, relation, parseFloat);
  }

  /** Ferritin's entries, as the scoring reads them: keyed by status, and
      nothing for a NORMAL value. */
  lemma FerritinWeights(parseFloat: string -> Option<real>)
    ensures RuleWeight("Ferritin", LOW, "SUPPORTS", parseFloat) == 0.6
    ensures RuleWeight("Ferritin", LOW, "CONTRADICTS", parseFloat) == 0.7
    ensures RuleWeight("Ferritin", NORMAL, "SUPPORTS", parseFloat) == 0.1
  {
    WeightsEntry("Ferritin");
  }

  /** hsCRP's entries are keyed by relation whatever the status. */
  lemma HsCrpWeights(status: Status, parseFloat: string -> Option<real>)
    ensures RuleWeight("hsCRP", status, "SUPPORTS", parseFloat) == 0.8
    ensures RuleWeight("hsCRP", status, "CONTRADICTS", parseFloat) == 0.0
  {
    WeightsEntry("hsCRP");
  }

  /** Iron has weights for a LOW value only. */
  lemma IronWeights(parseFloat: string -> Option<real>)
    ensures RuleWeight("Iron", LOW, "SUPPORTS", parseFloat) == 0.5
    ensures RuleWeight("Iron", HIGH, "SUPPORTS", parseFloat) == 0.1
  {
    WeightsEntry("Iron");
  }

  // --------------------------------------------------------------- labels

  /** The label of the first node of `nodes` with id `p`, or "" when there is none. */
  function FirstLabel(nodes: seq<Node>, p: string): (r: Option<string>)
    ensures r.Some? ==> exists i :: 0 <= i < |nodes| && nodes[i].id == p && nodes[i].nodeLabel == r.value
                                     && forall j :: 0 <= j < i ==> nodes[j].id != p
    ensures r.None? ==> forall i :: 0 <= i < |nodes| ==> nodes[i].id != p
  {
    if nodes == [] then None
    else if nodes[0].id == p then Some(nodes[0].nodeLabel)
    else
      var r := FirstLabel(nodes[1..], p);
      if r.Some? then
        var i :| 0 <= i < |nodes[1..]| && nodes[1..][i].id == p && nodes[1..][i].nodeLabel == r.value
                 && forall j :: 0 <= j < i ==> nodes[1..][j].id != p;
        assert nodes[i + 1] == nodes[1..][i];
        assert forall j :: 1 <= j < i + 1 ==> nodes[j] == nodes[1..][j - 1];
        r
      else r
  }

  /** `_pattern_label`: the graph's label for a pattern, else the first subgraph
      node's label, an empty label falling back to the id itself. */
  function PatternLabel(p: string, kgNodes: map<string, Node>, subgraph: Graph): (name: string)
    ensures p in kgNodes ==> name == (if kgNodes[p].nodeLabel != "" then kgNodes[p].nodeLabel else p)
    ensures name != p ==>
      name != "" &&
      ((p in kgNodes && name == kgNodes[p].nodeLabel) ||
       (p !in kgNodes && exists i :: 0 <= i < |subgraph.nodes| && subgraph.nodes[i].id == p && subgraph.nodes[i].nodeLabel == name
                                      && forall j :: 0 <= j < i ==> subgraph.nodes[j].id != p))
  {
    if p in kgNodes then (if kgNodes[p].nodeLabel != "" then kgNodes[p].nodeLabel else p)
    else
      match FirstLabel(subgraph.nodes, p)
      case Some(l) => if l != "" then l else p
      case None => p
  }

  // ------------------------------------------------------- evidence items

  datatype EvidenceItem = EvidenceItem(
    patternId: string, marker: string, markerNodeId: string, markerStatus: Status,
    edgeId: string, relation: string, weight: real, text: string)

  /** What every item of one call shares: the signals, the subgraph, the static
      node table for labels, and `float()` for weights. */
  datatype Setting = Setting(signals: seq<string>, subgraph: Graph, kgNodes: map<string, Node>, parseFloat: string -> Option<real>)

  /** The signalled pattern an edge leads to: its `from` end if that is a signal,
      else its `to` end if that is, else "". */
  function PatternOf(e: Edge, signals: seq<string>): (p: string)
    ensures p != "" ==> p in signals && (p == e.from || p == e.to)
    ensures e.from in signals ==> p == e.from
  {
    if e.from in signals then e.from else if e.to in signals then e.to else ""
  }

  /** An edge yields evidence for a marker node when it touches that node and leads to a signal. */
  predicate Qualifies(s: Setting, nodeId: string, e: Edge) {
    (e.from == nodeId || e.to == nodeId) && PatternOf(e, s.signals) != ""
  }

  function MakeItem(s: Setting, marker: string, nodeId: string, status: Status, e: Edge): EvidenceItem {
    var p := PatternOf(e, s.signals);
    EvidenceItem(p, marker, nodeId, status, e.id, e.relation,
      RuleWeight(marker, status, e.relation, s.parseFloat),
      marker + " " + StatusName(status) + " " + Lower(e.relation) + " " + PatternLabel(p, s.kgNodes, s.subgraph))
  }

  /** The evidence items one marker contributes, in edge order. */
  function ItemsForMarker(s: Setting, marker: string, nodeId: string, status: Status, edges: seq<Edge>): seq<EvidenceItem> {
    if edges == [] then []
    else
      var e := edges[|edges| - 1];
      ItemsForMarker(s, marker, nodeId, status, edges[..|edges| - 1])
      + (if Qualifies(s, nodeId, e) then [MakeItem(s, marker, nodeId, status, e)] else [])
  }

  /** Every item is an edge touching the marker's node and leading to a signalled pattern. */
  lemma {:induction false} ItemsForMarkerQualify(s: Setting, marker: string, nodeId: string, status: Status, edges: seq<Edge>, k: nat)
    requires k < |ItemsForMarker(s, marker, nodeId, status, edges)|
    ensures var item := ItemsForMarker(s, marker, nodeId, status, edges)[k];
      && item.patternId in s.signals && item.marker == marker && item.markerStatus == status
      && exists e :: e in edges && Qualifies(s, nodeId, e) && item == MakeItem(s, marker, nodeId, status, e)
  {
    var init := edges[..|edges| - 1];
    var e := edges[|edges| - 1];
    if k < |ItemsForMarker(s, marker, nodeId, status, init)| {
      ItemsForMarkerQualify(s, marker, nodeId, status, init, k);
    } else {
      assert e in edges;
    }
  }

  /** `{lab.marker: lab.status for lab in labs}`: a later lab overrides an earlier one. */
  function StatusTable(labs: seq<NormalizedLab>): (t: map<string, Status>)
    ensures forall i :: 0 <= i < |labs| ==> labs[i].marker in t
    ensures labs != [] ==> t[labs[|labs| - 1].marker] == labs[|labs| - 1].status
    ensures forall m :: m in t ==> exists i :: 0 <= i < |labs| && labs[i].marker == m && labs[i].status == t[m]
  {
    if labs == [] then map[]
    else
      var last := labs[|labs| - 1];
      StatusTable(labs[..|labs| - 1])[last.marker := last.status]
  }

  /** A lab whose marker no later lab repeats sets that marker's status. */
  lemma {:induction false} StatusTableLastWins(labs: seq<NormalizedLab>, i: nat)
    requires i < |labs| && forall j :: i < j < |labs| ==> labs[j].marker != labs[i].marker
    ensures StatusTable(labs)[labs[i].marker] == labs[i].status
  {
    if i < |labs| - 1 {
      var init := labs[..|labs| - 1];
      assert labs[|labs| - 1].marker != labs[i].marker;
      assert forall j :: i < j < |init| ==> init[j] == labs[j];
      StatusTableLastWins(init, i);
    }
  }

  /** `zip(markers, nodeIds)`: pairs by position, as long as the shorter list. */
  function Zip(markers: seq<string>, nodeIds: seq<string>): (pairs: seq<(string, string)>)
    ensures |pairs| == if |markers| < |nodeIds| then |markers| else |nodeIds|
    ensures forall i :: 0 <= i < |pairs| ==> pairs[i] == (markers[i], nodeIds[i])
  {
    var n := if |markers| < |nodeIds| then |markers| else |nodeIds|;
    seq(n, i requires 0 <= i < n => (markers[i], nodeIds[i]))
  }

  predicate AllKnown(pairs: seq<(string, string)>, table: map<string, Status>) {
    forall i :: 0 <= i < |pairs| ==> pairs[i].0 in table
  }

  /** All evidence items of a call: marker by marker, edge by edge. */
  function AllItems(s: Setting, table: map<string, Status>, pairs: seq<(string, string)>): seq<EvidenceItem>
    requires AllKnown(pairs, table)
  {
    if pairs == [] then []
    else
      var (marker, nodeId) := pairs[|pairs| - 1];
      AllItems(s, table, pairs[..|pairs| - 1]) + ItemsForMarker(s, marker, nodeId, table[marker], s.subgraph.edges)
  }

  lemma AllItemsStep(s: Setting, table: map<string, Status>, pairs: seq<(string, string)>, i: nat)
    requires i < |pairs| && AllKnown(pairs[..i], table) && pairs[i].0 in table
    ensures AllKnown(pairs[..i + 1], table)
    ensures AllItems(s, table, pairs[..i + 1]) ==
      AllItems(s, table, pairs[..i]) + ItemsForMarker(s, pairs[i].0, pairs[i].1, table[pairs[i].0], s.subgraph.edges)
  {
    assert pairs[..i + 1][..i] == pairs[..i];
    assert forall k :: 0 <= k < i + 1 ==> pairs[..i + 1][k] == pairs[k];
  }

  // ------------------------------------------------------------- scoring

  /** The relation an item is scored by: INCREASES/DECREASES read against the lab's direction. */
  function ScoringRelation(item: EvidenceItem): string {
    if (item.relation == "INCREASES" || item.relation == "DECREASES")
       && InferSupportRelation(item.relation, item.markerStatus) != ""
    then InferSupportRelation(item.relation, item.markerStatus)
    else item.relation
  }

  function Supports(items: seq<EvidenceItem>): seq<EvidenceItem> {
    if items == [] then []
    else Supports(items[..|items| - 1]) + (if ScoringRelation(items[|items| - 1]) == "SUPPORTS" then [items[|items| - 1]] else [])
  }

  function Contradictions(items: seq<EvidenceItem>): seq<EvidenceItem> {
    if items == [] then []
    else Contradictions(items[..|items| - 1]) + (if ScoringRelation(items[|items| - 1]) == "CONTRADICTS" then [items[|items| - 1]] else [])
  }

  /** How one item moves the score of pattern `p`. */
  function Delta(item: EvidenceItem, p: string): real {
    if item.patternId != p then 0.0
    else if ScoringRelation(item) == "SUPPORTS" then item.weight
    else if ScoringRelation(item) == "CONTRADICTS" then -item.weight
    else 0.0
  }

  /** The net change the items make to the score of `p`. */
  function Net(items: seq<EvidenceItem>, p: string): real {
    if items == [] then 0.0 else Net(items[..|items| - 1], p) + Delta(items[|items| - 1], p)
  }

  /** Total weight of the items for pattern `p`. */
  function WeightFor(items: seq<EvidenceItem>, p: string): real {
    if items == [] then 0.0
    else WeightFor(items[..|items| - 1], p) + (if items[|items| - 1].patternId == p then items[|items| - 1].weight else 0.0)
  }

  /** A pattern's net change is the weight of its supports minus that of its contradictions. */
  lemma {:induction false} NetIsSupportsMinusContradictions(items: seq<EvidenceItem>, p: string)
    ensures Net(items, p) == WeightFor(Supports(items), p) - WeightFor(Contradictions(items), p)
  {
    if items != [] {
      var init, last := items[..|items| - 1], items[|items| - 1];
      NetIsSupportsMinusContradictions(init, p);
      var sup, con := Supports(items), Contradictions(items);
      if ScoringRelation(last) == "SUPPORTS" {
        assert sup == Supports(init) + [last] && sup[..|sup| - 1] == Supports(init);
        assert WeightFor(sup, p) == WeightFor(Supports(init), p) + Delta(last, p);
        assert con == Contradictions(init);
      } else if ScoringRelation(last) == "CONTRADICTS" {
        assert con == Contradictions(init) + [last] && con[..|con| - 1] == Contradictions(init);
        assert WeightFor(con, p) == WeightFor(Contradictions(init), p) - Delta(last, p);
        assert sup == Supports(init);
      } else {
        assert sup == Supports(init) && con == Contradictions(init);
      }
    }
  }

  /** `max(0, min(1, x))`. */
  function Clamp(x: real): (r: real)
    ensures 0.0 <= r <= 1.0
    ensures 0.0 <= x <= 1.0 ==> r == x
  {
    if x > 1.0 then 1.0 else if x < 0.0 then 0.0 else x
  }

  // ---------------------------------------------------- dict of scores

  /** A Python dict from pattern id to score, as its (key, value) entries in insertion order. */
  type Scores = seq<(string, real)>

  function Keys(d: Scores): (ks: seq<string>)
    ensures |ks| == |d|
    ensures forall i :: 0 <= i < |d| ==> ks[i] == d[i].0
  {
    seq(|d|, i requires 0 <= i < |d| => d[i].0)
  }

  /** The distinct elements of `s` in order of first occurrence: the keys a dict
      built by assigning them in order ends up with. */
  function Dedup(s: seq<string>): (r: seq<string>)
    ensures forall x :: x in r <==> x in s
    ensures forall i, j :: 0 <= i < j < |r| ==> r[i] != r[j]
  {
    if s == [] then []
    else
      var d := Dedup(s[..|s| - 1]);
      assert forall x :: x in s <==> x in s[..|s| - 1] || x == s[|s| - 1] by {
        assert s == s[..|s| - 1] + [s[|s| - 1]];
      }
      if s[|s| - 1] in d then d else d + [s[|s| - 1]]
  }

  /** `d[k] += delta` on a dict whose keys are distinct. */
  function AddTo(d: Scores, k: string, delta: real): (r: Scores)
    ensures Keys(r) == Keys(d)
    ensures forall i :: 0 <= i < |d| ==> r[i].1 == if d[i].0 == k then d[i].1 + delta else d[i].1
  {
    seq(|d|, i requires 0 <= i < |d| => if d[i].0 == k then (k, d[i].1 + delta) else d[i])
  }

  /** `candidate_scores[p] = 0.5` for each signal in turn. */
  method InitScores(signals: seq<string>) returns (scores: Scores)
    ensures Keys(scores) == Dedup(signals)
    ensures forall i :: 0 <= i < |scores| ==> scores[i].1 == 0.5
  {
    scores := [];
    for i := 0 to |signals|
      invariant Keys(scores) == Dedup(signals[..i])
      invariant forall k :: 0 <= k < |scores| ==> scores[k].1 == 0.5
    {
      assert signals[..i + 1][..i] == signals[..i];
      if signals[i] !in Keys(scores) {
        scores := scores + [(signals[i], 0.5)];
      }
    }
    assert signals[..|signals|] == signals;
  }

  /** `candidate_scores[p] = max(0, min(1, candidate_scores[p]))` for every key. */
  method ClampScores(scores0: Scores) returns (scores: Scores)
    ensures Keys(scores) == Keys(scores0)
    ensures forall k :: 0 <= k < |scores| ==> scores[k].1 == Clamp(scores0[k].1)
  {
    scores := scores0;
    for k := 0 to |scores|
      invariant |scores| == |scores0| && Keys(scores) == Keys(scores0)
      invariant forall q :: 0 <= q < k ==> scores[q].1 == Clamp(scores0[q].1)
      invariant forall q :: k <= q < |scores| ==> scores[q] == scores0[q]
    {
      scores := scores[k := (scores[k].0, Clamp(scores[k].1))];
    }
  }

  // ------------------------------------------------------ top discriminators

  /** Heavier first: the order of `sort(key=weight, reverse=True)`. */
  function HeavierFirst(): (EvidenceItem, EvidenceItem) -> bool {
    (a: EvidenceItem, b: EvidenceItem) => a.weight >= b.weight
  }

  lemma HeavierFirstIsTotalPreorder()
    ensures TotalPreorder(HeavierFirst())
  {
  }

  /** The first five of the items stably sorted by weight, heaviest first. */
  function TopFive(items: seq<EvidenceItem>): seq<EvidenceItem> {
    var sorted := SortBy(items, HeavierFirst());
    sorted[..if |sorted| < 5 then |sorted| else 5]
  }

  /** At most five items, drawn from `items`, in non-increasing weight, none
      lighter than any item left out; items of equal weight keep their order. */
  lemma TopFiveProperties(items: seq<EvidenceItem>)
    ensures |TopFive(items)| <= 5 && |TopFive(items)| == if |items| < 5 then |items| else 5
    ensures multiset(TopFive(items)) <= multiset(items)
    ensures forall i, j :: 0 <= i < j < |TopFive(items)| ==> TopFive(items)[i].weight >= TopFive(items)[j].weight
    ensures forall i, j :: 0 <= i < |TopFive(items)| && 5 <= j < |items| ==>
      TopFive(items)[i].weight >= SortBy(items, HeavierFirst())[j].weight
    ensures forall x :: TiesOf(SortBy(items, HeavierFirst()), x, HeavierFirst()) == TiesOf(items, x, HeavierFirst())
  {
    var sorted := SortBy(items, HeavierFirst());
    HeavierFirstIsTotalPreorder();
    SortByIsSorted(items, HeavierFirst());
    HeaviestPrefix(sorted, if |sorted| < 5 then |sorted| else 5);
    forall x ensures TiesOf(sorted, x, HeavierFirst()) == TiesOf(items, x, HeavierFirst()) {
      SortByIsStable(items, x, HeavierFirst());
    }
  }

  /** A prefix of a list sorted heaviest first is drawn from it, is itself in
      non-increasing weight, and outweighs every item after it. */
  lemma HeaviestPrefix(sorted: seq<EvidenceItem>, n: nat)
    requires n <= |sorted| && SortedBy(sorted, HeavierFirst())
    ensures multiset(sorted[..n]) <= multiset(sorted)
    ensures forall i, j :: 0 <= i < j < n ==> sorted[..n][i].weight >= sorted[..n][j].weight
    ensures forall i, j :: 0 <= i < n <= j < |sorted| ==> sorted[..n][i].weight >= sorted[j].weight
  {
    assert sorted == sorted[..n] + sorted[n..];
    assert multiset(sorted) == multiset(sorted[..n]) + multiset(sorted[n..]);
    forall i, j | 0 <= i < j < |sorted| ensures sorted[i].weight >= sorted[j].weight {
      assert HeavierFirst()(sorted[i], sorted[j]);
    }
  }

  // ------------------------------------------------------------ the bundle

  const AllowedClaims: seq<string> := [
    "Possible iron deficiency pattern",
    "Recommend TSAT test",
    "Avoid iron supplementation as first-line if inflammation pattern present"]

  datatype EvidenceBundle = EvidenceBundle(
    subgraph: Graph,
    supports: seq<EvidenceItem>,
    contradictions: seq<EvidenceItem>,
    candidateScores: Scores,
    topDiscriminators: seq<EvidenceItem>,
    allowedClaims: seq<string>)

  /** The running state of the scan: every item so far, split and scored. */
  ghost predicate Scanned(items: seq<EvidenceItem>, supports: seq<EvidenceItem>, contradictions: seq<EvidenceItem>,
                          scores: Scores, keys: seq<string>, top: seq<EvidenceItem>)
  {
    && top == items
    && supports == Supports(items)
    && contradictions == Contradictions(items)
    && Keys(scores) == keys
    && forall k :: 0 <= k < |scores| ==> scores[k].1 == 0.5 + Net(items, scores[k].0)
  }

  lemma NetStep(items: seq<EvidenceItem>, item: EvidenceItem, p: string)
    ensures Net(items + [item], p) == Net(items, p) + Delta(item, p)
  {
    assert (items + [item])[..|items|] == items;
  }

  /** Scanning one more item keeps the running state in step with the items. */
  lemma ScanStep(items: seq<EvidenceItem>, item: EvidenceItem, supports: seq<EvidenceItem>, contradictions: seq<EvidenceItem>,
                 scores: Scores, keys: seq<string>, top: seq<EvidenceItem>)
    requires Scanned(items, supports, contradictions, scores, keys, top)
    ensures var scoring := ScoringRelation(item);
      Scanned(items + [item],
        if scoring == "SUPPORTS" then supports + [item] else supports,
        if scoring == "CONTRADICTS" then contradictions + [item] else contradictions,
        if scoring == "SUPPORTS" then AddTo(scores, item.patternId, item.weight)
        else if scoring == "CONTRADICTS" then AddTo(scores, item.patternId, -item.weight)
        else scores,
        keys, top + [item])
  {
    var all := items + [item];
    assert all[..|items|] == items;
    var scoring := ScoringRelation(item);
    assert Supports(all) == if scoring == "SUPPORTS" then supports + [item] else supports;
    assert Contradictions(all) == if scoring == "CONTRADICTS" then contradictions + [item] else contradictions;
    var scores' := if scoring == "SUPPORTS" then AddTo(scores, item.patternId, item.weight)
        else if scoring == "CONTRADICTS" then AddTo(scores, item.patternId, -item.weight)
        else scores;
    forall k | 0 <= k < |scores'| ensures scores'[k].1 == 0.5 + Net(all, scores'[k].0) {
      NetStep(items, item, scores[k].0);
    }
  }

  lemma ItemsForMarkerStep(s: Setting, marker: string, nodeId: string, status: Status, edges: seq<Edge>, j: nat)
    requires j < |edges|
    ensures ItemsForMarker(s, marker, nodeId, status, edges[..j + 1]) ==
      ItemsForMarker(s, marker, nodeId, status, edges[..j])
      + (if Qualifies(s, nodeId, edges[j]) then [MakeItem(s, marker, nodeId, status, edges[j])] else [])
  {
    assert edges[..j + 1][..j] == edges[..j];
  }

  /** The inner loop of `build_evidence`: one marker against every subgraph edge. */
  method ScanMarker(s: Setting, marker: string, nodeId: string, status: Status,
                    supports0: seq<EvidenceItem>, contradictions0: seq<EvidenceItem>, scores0: Scores, top0: seq<EvidenceItem>,
                    ghost before: seq<EvidenceItem>, ghost keys: seq<string>)
    returns (supports: seq<EvidenceItem>, contradictions: seq<EvidenceItem>, scores: Scores, top: seq<EvidenceItem>)
    requires Scanned(before, supports0, contradictions0, scores0, keys, top0)
    ensures Scanned(before + ItemsForMarker(s, marker, nodeId, status, s.subgraph.edges), supports, contradictions, scores, keys, top)
  {
    supports, contradictions, scores, top := supports0, contradictions0, scores0, top0;
    var edges := s.subgraph.edges;
    for j := 0 to |edges|
      invariant Scanned(before + ItemsForMarker(s, marker, nodeId, status, edges[..j]), supports, contradictions, scores, keys, top)
    {
      var e := edges[j];
      ghost var cur := ItemsForMarker(s, marker, nodeId, status, edges[..j]);
      ghost var done := before + cur;
      ItemsForMarkerStep(s, marker, nodeId, status, edges, j);
      if (e.from == nodeId || e.to == nodeId) && PatternOf(e, s.signals) != "" {
        var item := MakeItem(s, marker, nodeId, status, e);
        ScanStep(done, item, supports, contradictions, scores, keys, top);
        var scoring := ScoringRelation(item);
        if scoring == "SUPPORTS" {
          supports := supports + [item];
          scores := AddTo(scores, item.patternId, item.weight);
        } else if scoring == "CONTRADICTS" {
          contradictions := contradictions + [item];
          scores := AddTo(scores, item.patternId, -item.weight);
        }
        top := top + [item];
        assert ItemsForMarker(s, marker, nodeId, status, edges[..j + 1]) == cur + [item];
        AppendOne(before, cur, item);
      }
    }
    assert edges[..|edges|] == edges;
  }

  /** `build_evidence`, rule path. A marker missing from the labs is a KeyError;
      otherwise the items are split into supports and contradictions, every
      signalled pattern is scored from 0.5 and clamped, and the five heaviest
      items are kept. */
  method BuildEvidence(card: CaseCard, subgraph: Graph, labs: seq<NormalizedLab>,
                       kgNodes: map<string, Node>, parseFloat: string -> Option<real>)
    returns (r: Result<EvidenceBundle>)
    ensures var pairs := Zip(card.abnormalMarkers, card.abnormalMarkerNodeIds);
      r.Err? <==> !AllKnown(pairs, StatusTable(labs))
    ensures var pairs := Zip(card.abnormalMarkers, card.abnormalMarkerNodeIds);
      r.Ok? ==>
        var items := AllItems(Setting(card.signals, subgraph, kgNodes, parseFloat), StatusTable(labs), pairs);
        && r.value.subgraph == subgraph
        && r.value.supports == Supports(items)
        && r.value.contradictions == Contradictions(items)
        && Keys(r.value.candidateScores) == Dedup(card.signals)
        && (forall k :: 0 <= k < |r.value.candidateScores| ==>
              r.value.candidateScores[k].1 == Clamp(0.5 + Net(items, r.value.candidateScores[k].0)))
        && r.value.topDiscriminators == TopFive(items)
        && r.value.allowedClaims == AllowedClaims
  {
    var s := Setting(card.signals, subgraph, kgNodes, parseFloat);
    var table := StatusTable(labs);
    var pairs := Zip(card.abnormalMarkers, card.abnormalMarkerNodeIds);
    var scores := InitScores(card.signals);
    var supports: seq<EvidenceItem> := [];
    var contradictions: seq<EvidenceItem> := [];
    var top: seq<EvidenceItem> := [];
    for i := 0 to |pairs|
      invariant AllKnown(pairs[..i], table)
      invariant Scanned(AllItems(s, table, pairs[..i]), supports, contradictions, scores, Dedup(card.signals), top)
    {
      var (marker, nodeId) := pairs[i];
      if marker !in table {
        return Err("KeyError");
      }
      AllItemsStep(s, table, pairs, i);
      supports, contradictions, scores, top :=
        ScanMarker(s, marker, nodeId, table[marker], supports, contradictions, scores, top,
                   AllItems(s, table, pairs[..i]), Dedup(card.signals));
    }
    assert pairs[..|pairs|] == pairs;
    scores := ClampScores(scores);
    top := TopFive(top);
    r := Ok(EvidenceBundle(subgraph, supports, contradictions, scores, top, AllowedClaims));
  }

  /** On a case card built from the same labs no marker is missing, so the
      KeyError path is never taken in the pipeline. */
  lemma CardMarkersAreKnown(labs: seq<NormalizedLab>, patientContext: Json, markerToNode: map<string, string>)
    ensures var card := BuildCaseCard(labs, patientContext, markerToNode);
      AllKnown(Zip(card.abnormalMarkers, card.abnormalMarkerNodeIds), StatusTable(labs))
  {
    var card := BuildCaseCard(labs, patientContext, markerToNode);
    var pairs := Zip(card.abnormalMarkers, card.abnormalMarkerNodeIds);
    forall i | 0 <= i < |pairs| ensures pairs[i].0 in StatusTable(labs) {
      AbnormalMarkersMembers(labs, pairs[i].0);
    }
  }
}
