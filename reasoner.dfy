/** The lite reasoner: one hypothesis for the best-scored pattern, with the
    evidence and counter-evidence recorded for that pattern. */
module Reasoner {
  import opened Wrappers
  import opened LabNormalizer
  import opened EvidenceBuilder
  import Seqs

  const PatternToCondition: map<string, string> := map[
    "p_iron_def" := "Iron deficiency anemia",
    "p_inflam_iron_seq" := "Anemia of inflammation",
    "p_hypothyroid" := "Hypothyroidism"]

  /** An evidence item as the reasoner reports it: marker, status and edge. */
  datatype EvidenceRef = EvidenceRef(marker: string, status: Status, edgeId: string)

  datatype TestRef = TestRef(testId: string, name: string)

  datatype PatientAction = PatientAction(bucket: string, task: string, why: string, risk: string)

  datatype Hypothesis = Hypothesis(
    id: string,
    name: string,
    confidence: real,
    evidence: seq<EvidenceRef>,
    counterEvidence: seq<EvidenceRef>,
    nextTests: seq<TestRef>,
    whatWouldChangeMind: seq<string>)

  /** The reasoner's reply: a hypothesis list with actions, or an error object. */
  datatype ReasonerOutput =
    | Reasoned(hypotheses: seq<Hypothesis>, patientActions: seq<PatientAction>, redFlags: seq<string>)
    | ErrorReply(error: string)

  // ------------------------------------------------------------- argmax

  /** `max(scores, key=scores.get)`: the position of the first entry, in
      insertion order, whose score is the largest. */
  function FirstMax(scores: Scores): (i: nat)
    requires scores != []
    ensures i < |scores|
    ensures forall k :: 0 <= k < |scores| ==> scores[k].1 <= scores[i].1
    ensures forall k :: 0 <= k < i ==> scores[k].1 < scores[i].1
  {
    if |scores| == 1 then 0
    else
      var j := FirstMax(scores[..|scores| - 1]);
      if scores[|scores| - 1].1 > scores[j].1 then |scores| - 1 else j
  }

  // ---------------------------------------------------- naming and advice

  function ConditionOf(p: string): string {
    if p in PatternToCondition then PatternToCondition[p] else "Unknown condition"
  }

  function HypothesisName(p: string): string {
    ConditionOf(p) + " (possible)"
  }

  /** Equal strings with the same suffix have equal prefixes. */
  lemma CancelSuffix(a: string, b: string, suffix: string)
    requires a + suffix == b + suffix
    ensures a == b
  {
    assert a == (a + suffix)[..|a|];
    assert b == (b + suffix)[..|b|];
  }

  /** The generic name is used exactly for patterns without a condition, and a
      specific name identifies its pattern. */
  lemma HypothesisNameIdentifiesPattern(p: string, q: string)
    ensures HypothesisName(p) == "Unknown condition (possible)" <==> p !in PatternToCondition
    ensures p in PatternToCondition && HypothesisName(p) == HypothesisName(q) ==> p == q
  {
    assert "Unknown condition (possible)" == "Unknown condition" + " (possible)";
    if HypothesisName(p) == "Unknown condition (possible)" {
      CancelSuffix(ConditionOf(p), "Unknown condition", " (possible)");
    }
    if HypothesisName(p) == HypothesisName(q) {
      CancelSuffix(ConditionOf(p), ConditionOf(q), " (possible)");
    }
  }

  function NextTests(p: string): seq<TestRef> {
    if p == "p_inflam_iron_seq" then [TestRef("t_stfr", "Soluble transferrin receptor (sTfR)")] else []
  }

  function ActionsFor(p: string): seq<PatientAction> {
    if p == "p_inflam_iron_seq" then
      [PatientAction("tests", "Ask clinician about sTfR or repeat iron studies", "Differentiate mixed picture", "low")]
    else []
  }

  const WhatWouldChangeMind: seq<string> := ["If ferritin decreases over time", "If CRP normalizes"]

  // ------------------------------------------------- evidence for a pattern

  function RefOf(item: EvidenceItem): EvidenceRef {
    EvidenceRef(item.marker, item.markerStatus, item.edgeId)
  }

  /** The items recorded for pattern `p`, as references, in their order. */
  function Matching(items: seq<EvidenceItem>, p: string): seq<EvidenceRef> {
    if items == [] then []
    else
      var last := items[|items| - 1];
      Matching(items[..|items| - 1], p) + (if last.patternId == p then [RefOf(last)] else [])
  }

  /** Filtering keeps order: the references for a concatenation are the
      references for each part, one after the other. */
  lemma {:induction false} MatchingAppend(a: seq<EvidenceItem>, b: seq<EvidenceItem>, p: string)
    ensures Matching(a + b, p) == Matching(a, p) + Matching(b, p)
  {
    if b != [] {
      var init, last := b[..|b| - 1], b[|b| - 1];
      assert (a + b)[..|a + b| - 1] == a + init;
      assert (a + b)[|a + b| - 1] == last;
      var tail := if last.patternId == p then [RefOf(last)] else [];
      assert Matching(a + b, p) == Matching(a + init, p) + tail;
      assert Matching(b, p) == Matching(init, p) + tail;
      MatchingAppend(a, init, p);
      Seqs.AppendSeq(Matching(a, p), Matching(init, p), tail);
    } else {
      assert a + b == a;
    }
  }

  /** A reference is reported exactly when some item for `p` carries it. */
  lemma {:induction false} MatchingMembers(items: seq<EvidenceItem>, p: string, r: EvidenceRef)
    ensures r in Matching(items, p) <==> exists i :: 0 <= i < |items| && items[i].patternId == p && RefOf(items[i]) == r
  {
    if items != [] {
      var init := items[..|items| - 1];
      MatchingMembers(init, p, r);
      if exists i :: 0 <= i < |items| && items[i].patternId == p && RefOf(items[i]) == r {
        var i :| 0 <= i < |items| && items[i].patternId == p && RefOf(items[i]) == r;
        if i < |init| {
          assert init[i] == items[i];
        }
      }
      if r in Matching(init, p) {
        var i :| 0 <= i < |init| && init[i].patternId == p && RefOf(init[i]) == r;
        assert items[i] == init[i];
      }
    }
  }

  /** The loop `for item in items: if item['pattern_id'] == p: out.append(...)`. */
  method CollectFor(items: seq<EvidenceItem>, p: string) returns (out: seq<EvidenceRef>)
    ensures out == Matching(items, p)
  {
    out := [];
    for k := 0 to |items|
      invariant out == Matching(items[..k], p)
    {
      assert items[..k + 1][..k] == items[..k];
      if items[k].patternId == p {
        out := out + [RefOf(items[k])];
      }
    }
    assert items[..|items|] == items;
  }

  // ------------------------------------------------------------- reason

  /** `reason`. In lite mode: nothing for an empty score dict, otherwise one
      hypothesis H1 for the first best-scored pattern, scored at that pattern's
      score, with that pattern's discriminators as evidence and its
      contradictions as counter-evidence; follow-up test and action only for the
      inflammation pattern. Outside lite mode: the "Model not loaded" error. */
  method Reason(liteMode: bool, bundle: EvidenceBundle) returns (out: ReasonerOutput)
    ensures !liteMode ==> out == ErrorReply("Model not loaded")
    ensures liteMode && bundle.candidateScores == [] ==> out == Reasoned([], [], [])
    ensures liteMode && bundle.candidateScores != [] ==>
      var i := FirstMax(bundle.candidateScores);
      var p := bundle.candidateScores[i].0;
      && out.Reasoned?
      && out.hypotheses == [Hypothesis("H1", HypothesisName(p), bundle.candidateScores[i].1,
                                       Matching(bundle.topDiscriminators, p),
                                       Matching(bundle.contradictions, p),
                                       NextTests(p), WhatWouldChangeMind)]
      && out.patientActions == ActionsFor(p)
      && out.redFlags == []
  {
    if !liteMode {
      return ErrorReply("Model not loaded");
    }
    var scores := bundle.candidateScores;
    if scores == [] {
      return Reasoned([], [], []);
    }
    var i := FirstMax(scores);
    var topPattern := scores[i].0;
    var evidence := CollectFor(bundle.topDiscriminators, topPattern);
    var counterEvidence := CollectFor(bundle.contradictions, topPattern);
    var hypothesis := Hypothesis("H1", HypothesisName(topPattern), scores[i].1, evidence, counterEvidence,
                                 NextTests(topPattern), WhatWouldChangeMind);
    out := Reasoned([hypothesis], ActionsFor(topPattern), []);
  }

  // ------------------------------------------------------------ as JSON

  function RefJson(r: EvidenceRef): Json {
    JObj(map["marker" := JStr(r.marker), "status" := JStr(StatusName(r.status)), "edge_id" := JStr(r.edgeId)])
  }

  function RefsJson(rs: seq<EvidenceRef>): (j: seq<Json>)
    ensures |j| == |rs|
  {
    seq(|rs|, i requires 0 <= i < |rs| => RefJson(rs[i]))
  }

  function TestJson(t: TestRef): Json {
    JObj(map["test_id" := JStr(t.testId), "label" := JStr(t.name)])
  }

  function HypothesisJson(h: Hypothesis): Json {
    JObj(map[
      "id" := JStr(h.id),
      "name" := JStr(h.name),
      "confidence" := JNum(h.confidence),
      "evidence" := JList(RefsJson(h.evidence)),
      "counter_evidence" := JList(RefsJson(h.counterEvidence)),
      "next_tests" := JList(seq(|h.nextTests|, i requires 0 <= i < |h.nextTests| => TestJson(h.nextTests[i]))),
      "what_would_change_my_mind" := JList(seq(|h.whatWouldChangeMind|, i requires 0 <= i < |h.whatWouldChangeMind| => JStr(h.whatWouldChangeMind[i])))])
  }

  function ActionJson(a: PatientAction): Json {
    JObj(map["bucket" := JStr(a.bucket), "task" := JStr(a.task), "why" := JStr(a.why), "risk" := JStr(a.risk)])
  }

  function ActionsJson(actions: seq<PatientAction>): (j: seq<Json>)
    ensures |j| == |actions|
  {
    seq(|actions|, i requires 0 <= i < |actions| => ActionJson(actions[i]))
  }

  /** The dict `reason` returns. */
  function OutputJson(out: ReasonerOutput): Json {
    match out
    case ErrorReply(e) => JObj(map["error" := JStr(e)])
    case Reasoned(hs, actions, flags) =>
      JObj(map[
        "hypotheses" := JList(seq(|hs|, i requires 0 <= i < |hs| => HypothesisJson(hs[i]))),
        "patient_actions" := JList(ActionsJson(actions)),
        "red_flags" := JList(seq(|flags|, i requires 0 <= i < |flags| => JStr(flags[i])))])
  }
}
