/** Context selection: the abnormal markers of a case, their graph node ids,
    the pattern "signals" fixed rules derive from them, and the subgraph around
    those node ids. */
module ContextSelector {
  import opened Wrappers
  import opened Strings
  import opened Sorting
  import opened Graph
  import opened LabNormalizer
  import opened KgStore

  /** The case card handed to the later pipeline stages. */
  datatype CaseCard = CaseCard(
    abnormalMarkers: seq<string>,
    abnormalMarkerNodeIds: seq<string>,
    signals: seq<string>,
    patientContext: Json,
    normalizedLabs: seq<NormalizedLab>)

  /** The markers of the labs whose status is not NORMAL, in lab order. */
  function AbnormalMarkers(labs: seq<NormalizedLab>): (r: seq<string>)
    ensures |r| <= |labs|
  {
    if labs == [] then []
    else (if labs[0].status != NORMAL then [labs[0].marker] else []) + AbnormalMarkers(labs[1..])
  }

  /** The markers of two runs of labs are those of the first run, then those
      of the second: lab order and repetitions are kept. */
  lemma {:induction false} AbnormalMarkersAppend(a: seq<NormalizedLab>, b: seq<NormalizedLab>)
    ensures AbnormalMarkers(a + b) == AbnormalMarkers(a) + AbnormalMarkers(b)
  {
    if a != [] {
      assert (a + b)[0] == a[0];
      assert (a + b)[1..] == a[1..] + b;
      AbnormalMarkersAppend(a[1..], b);
    } else {
      assert a + b == b;
    }
  }

  /** One lab contributes its marker exactly when its status is not NORMAL. */
  lemma AbnormalMarkersOfOne(lab: NormalizedLab)
    ensures AbnormalMarkers([lab]) == if lab.status != NORMAL then [lab.marker] else []
  {
    assert [lab][1..] == [];
  }

  /** A marker is abnormal exactly when some lab of that marker is not NORMAL
      (REFERENCE_UNKNOWN counts as abnormal). */
  lemma {:induction false} AbnormalMarkersMembers(labs: seq<NormalizedLab>, m: string)
    ensures m in AbnormalMarkers(labs) <==>
      exists i :: 0 <= i < |labs| && labs[i].marker == m && labs[i].status != NORMAL
  {
    if labs != [] {
      AbnormalMarkersMembers(labs[1..], m);
      if m in AbnormalMarkers(labs[1..]) {
        var i :| 0 <= i < |labs[1..]| && labs[1..][i].marker == m && labs[1..][i].status != NORMAL;
        assert labs[i + 1] == labs[1..][i];
      }
      if exists i :: 0 <= i < |labs| && labs[i].marker == m && labs[i].status != NORMAL {
        var i :| 0 <= i < |labs| && labs[i].marker == m && labs[i].status != NORMAL;
        if i > 0 {
          assert labs[1..][i - 1] == labs[i];
        }
      }
    }
  }

  /** `MARKER_TO_NODE.get(m, default)`. */
  function MarkerNodeId(markerToNode: map<string, string>, m: string): string {
    if m in markerToNode then markerToNode[m] else DefaultNodeId(m)
  }

  function MappedIds(markerToNode: map<string, string>, markers: seq<string>): (r: seq<string>)
    ensures |r| == |markers|
    ensures forall i :: 0 <= i < |markers| ==> r[i] == MarkerNodeId(markerToNode, markers[i])
  {
    seq(|markers|, i requires 0 <= i < |markers| => MarkerNodeId(markerToNode, markers[i]))
  }

  const IronMarkers: seq<string> := ["Ferritin", "Iron", "TSAT", "Hb"]
  const ThyroidMarkers: seq<string> := ["TSH", "FT4", "FT3"]

  /** Whether any of `ms` is among `abnormal`. */
  predicate AnyIn(ms: seq<string>, abnormal: seq<string>) {
    exists m :: m in ms && m in abnormal
  }

  /** The position of a signal in the fixed order iron, thyroid, inflammation. */
  function SignalRank(p: string): int {
    if p == "p_iron_def" then 0 else if p == "p_hypothyroid" then 1 else 2
  }

  /** The pattern signals: iron deficiency when an iron-panel marker is abnormal,
      hypothyroidism when a thyroid marker is, inflammation when hsCRP is; in
      that fixed order, each at most once. */
  function Signals(abnormal: seq<string>): (r: seq<string>)
    ensures "p_iron_def" in r <==> AnyIn(IronMarkers, abnormal)
    ensures "p_hypothyroid" in r <==> AnyIn(ThyroidMarkers, abnormal)
    ensures "p_inflam_iron_seq" in r <==> "hsCRP" in abnormal
    ensures forall x :: x in r ==> x in ["p_iron_def", "p_hypothyroid", "p_inflam_iron_seq"]
    ensures forall i, j :: 0 <= i < j < |r| ==> SignalRank(r[i]) < SignalRank(r[j])
  {
    (if AnyIn(IronMarkers, abnormal) then ["p_iron_def"] else [])
    + (if AnyIn(ThyroidMarkers, abnormal) then ["p_hypothyroid"] else [])
    + (if "hsCRP" in abnormal then ["p_inflam_iron_seq"] else [])
  }

  /** The case card of `select_context`. */
  function BuildCaseCard(labs: seq<NormalizedLab>, patientContext: Json, markerToNode: map<string, string>): (card: CaseCard)
    ensures card.abnormalMarkers == AbnormalMarkers(labs)
    ensures multiset(card.abnormalMarkerNodeIds) == multiset(MappedIds(markerToNode, card.abnormalMarkers))
    ensures forall i, j :: 0 <= i < j < |card.abnormalMarkerNodeIds| ==>
      LexLe(card.abnormalMarkerNodeIds[i], card.abnormalMarkerNodeIds[j])
    ensures card.signals == Signals(card.abnormalMarkers)
    ensures card.patientContext == patientContext && card.normalizedLabs == labs
  {
    var abnormal := AbnormalMarkers(labs);
    var ids := SortStrings(MappedIds(markerToNode, abnormal));
    SortStringsCorrect(MappedIds(markerToNode, abnormal));
    CaseCard(abnormal, ids, Signals(abnormal), patientContext, labs)
  }

  /** The node ids are sorted on their own, so position `i` need not hold the id of
      the `i`-th abnormal marker: a HIGH TSH listed before a LOW Ferritin puts
      `m_ferritin` first. */
  lemma SortedIdsNeedNotMatchMarkers()
    ensures var labs := [
              NormalizedLab("TSH", 6.0, "mIU/L", 0.4, 4.0, HIGH, "t", false),
              NormalizedLab("Ferritin", 8.0, "ng/mL", 15.0, 150.0, LOW, "t", false)];
            var card := BuildCaseCard(labs, JNull, map[]);
            card.abnormalMarkers == ["TSH", "Ferritin"]
            && card.abnormalMarkerNodeIds == ["m_ferritin", "m_tsh"]
            && card.abnormalMarkerNodeIds[0] != MarkerNodeId(map[], card.abnormalMarkers[0])
  {
    var labs := [
      NormalizedLab("TSH", 6.0, "mIU/L", 0.4, 4.0, HIGH, "t", false),
      NormalizedLab("Ferritin", 8.0, "ng/mL", 15.0, 150.0, LOW, "t", false)];
    assert AbnormalMarkers(labs) == ["TSH", "Ferritin"] by {
      assert labs[1..][1..] == [];
    }
    TshFerritinIds();
    TshFerritinSorted();
    assert BuildCaseCard(labs, JNull, map[]).abnormalMarkerNodeIds == ["m_ferritin", "m_tsh"];
    assert MarkerNodeId(map[], "TSH") == "m_tsh";
  }

  lemma TshFerritinIds()
    ensures MappedIds(map[], ["TSH", "Ferritin"]) == ["m_tsh", "m_ferritin"]
  {
    assert DefaultNodeId("TSH") == "m_tsh" by {
      assert Lower("TSH") == "tsh";
      assert ReplaceChar("tsh", ' ', '_') == "tsh";
    }
    assert DefaultNodeId("Ferritin") == "m_ferritin" by {
      assert Lower("Ferritin") == "ferritin";
      assert ReplaceChar("ferritin", ' ', '_') == "ferritin";
    }
  }

  lemma TshFerritinSorted()
    ensures SortStrings(["m_tsh", "m_ferritin"]) == ["m_ferritin", "m_tsh"]
  {
    assert !LexLe("m_tsh", "m_ferritin") by {
      assert "m_tsh"[1..][1..] == "tsh" && "m_ferritin"[1..][1..] == "ferritin";
    }
    SortPairSwaps("m_tsh", "m_ferritin", LexLe);
  }

  /** `select_context`: the case card, and the store's subgraph for exactly the
      sorted node-id list with two hops and at most 60 nodes. */
  method SelectContext(store: KGStore, labs: seq<NormalizedLab>, patientContext: Json, markerToNode: map<string, string>)
    returns (card: CaseCard, subgraph: Graph,
             ghost tier1: seq<string>, ghost tier2: seq<string>, ghost tier3: seq<string>, ghost selected: seq<string>)
    requires store.Valid()
    ensures card == BuildCaseCard(labs, patientContext, markerToNode)
    ensures store.Selection(card.abnormalMarkerNodeIds, 2, 60, tier1, tier2, tier3, selected, subgraph)
  {
    card := BuildCaseCard(labs, patientContext, markerToNode);
    subgraph, tier1, tier2, tier3, selected := store.SubgraphFromMarkers(card.abnormalMarkerNodeIds, 2, 60);
  }
}
