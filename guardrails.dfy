/** The guardrail checker: four rules screen the reasoner's output, and every
    rule that fires records a failure and a "remove" patch for the offending
    element. */
module Guardrails {
  import opened Wrappers
  import opened Strings
  import opened LabNormalizer
  import opened ContextSelector
  import opened Reasoner
  import Seqs

  const AllowedBuckets: seq<string> := ["tests", "scheduling", "questions for clinician", "low-risk defaults"]

  const DosingWords: seq<string> := ["mg", "dose", "supplement"]

  datatype RuleFailure = RuleFailure(id: string, message: string)

  datatype Patch = Patch(op: string, path: string)

  datatype Verdict = Pass | Fail

  datatype GuardrailReport = GuardrailReport(status: Verdict, failedRules: seq<RuleFailure>, patches: seq<Patch>)

  /** A rule firing: the failure recorded and the patch emitted with it. */
  datatype Finding = Finding(rule: RuleFailure, patch: Patch)

  function RulesOf(fs: seq<Finding>): (r: seq<RuleFailure>)
    ensures |r| == |fs|
  {
    seq(|fs|, i requires 0 <= i < |fs| => fs[i].rule)
  }

  function PatchesOf(fs: seq<Finding>): (r: seq<Patch>)
    ensures |r| == |fs|
  {
    seq(|fs|, i requires 0 <= i < |fs| => fs[i].patch)
  }

  lemma RulesAndPatchesAppend(a: seq<Finding>, b: seq<Finding>)
    ensures RulesOf(a + b) == RulesOf(a) + RulesOf(b)
    ensures PatchesOf(a + b) == PatchesOf(a) + PatchesOf(b)
  {
  }

  /** `reasoner_output.get('patient_actions', [])`. */
  function ActionsOf(out: ReasonerOutput): seq<PatientAction> {
    if out.Reasoned? then out.patientActions else []
  }

  /** `reasoner_output.get('hypotheses', [])`. */
  function HypothesesOf(out: ReasonerOutput): seq<Hypothesis> {
    if out.Reasoned? then out.hypotheses else []
  }

  function LabMarkers(labs: seq<NormalizedLab>): (ms: seq<string>)
    ensures |ms| == |labs|
  {
    seq(|labs|, i requires 0 <= i < |labs| => labs[i].marker)
  }

  /** Some word of `words` occurs in `s`. */
  predicate ContainsAny(s: string, words: seq<string>) {
    exists i :: 0 <= i < |words| && Contains(s, words[i])
  }

  function ActionPath(i: nat): string {
    "/patient_actions/" + NatToString(i)
  }

  function EvidencePath(h: nat, e: nat): string {
    "/hypotheses/" + NatToString(h) + "/evidence/" + NatToString(e)
  }

  function Remove(path: string): Patch {
    Patch("remove", path)
  }

  // ------------------------------------------------------------ the rules

  /** GR_001: an iron supplement while the inflammation pattern is signalled. */
  function Gr001(inflammation: bool): PatientAction -> Option<RuleFailure> {
    (a: PatientAction) =>
      if Contains(Lower(a.task), "iron") && Contains(Lower(a.task), "supplement") && inflammation
      then Some(RuleFailure("GR_001", "Iron supplementation blocked under inflammation pattern."))
      else None
  }

  /** GR_003: any mention of a dose. */
  function Gr003(): PatientAction -> Option<RuleFailure> {
    (a: PatientAction) =>
      if ContainsAny(Lower(a.task), DosingWords)
      then Some(RuleFailure("GR_003", "No dosing recommendations allowed."))
      else None
  }

  /** GR_004: the task text names none of the allowed buckets. */
  function Gr004(): PatientAction -> Option<RuleFailure> {
    (a: PatientAction) =>
      if !ContainsAny(Lower(a.task), AllowedBuckets)
      then Some(RuleFailure("GR_004", "Action '" + a.task + "' not in allowed buckets."))
      else None
  }

  /** The findings of one per-action rule, action by action. */
  function ActionFindings(actions: seq<PatientAction>, rule: PatientAction -> Option<RuleFailure>): seq<Finding> {
    if actions == [] then []
    else
      var i := |actions| - 1;
      ActionFindings(actions[..i], rule)
      + match rule(actions[i]) { case None => [] case Some(r) => [Finding(r, Remove(ActionPath(i)))] }
  }

  /** GR_005: the findings for the evidence items of hypothesis `h` whose
      marker is not an input marker. */
  function EvidenceFindings(h: nat, evidence: seq<EvidenceRef>, markers: seq<string>): seq<Finding> {
    if evidence == [] then []
    else
      var e := |evidence| - 1;
      EvidenceFindings(h, evidence[..e], markers)
      + if evidence[e].marker in markers then [] else [MarkerFinding(h, e, evidence[e].marker)]
  }

  /** The GR_005 finding for evidence item `e` of hypothesis `h`. */
  function MarkerFinding(h: nat, e: nat, marker: string): Finding {
    Finding(RuleFailure("GR_005", "Marker '" + marker + "' not in input."), Remove(EvidencePath(h, e)))
  }

  function Gr005(hypotheses: seq<Hypothesis>, markers: seq<string>): seq<Finding> {
    if hypotheses == [] then []
    else
      var h := |hypotheses| - 1;
      Gr005(hypotheses[..h], markers) + EvidenceFindings(h, hypotheses[h].evidence, markers)
  }

  /** Every finding of a check, in the order the checker reports them. */
  function Findings(out: ReasonerOutput, signals: seq<string>, labs: seq<NormalizedLab>): seq<Finding> {
    var actions := ActionsOf(out);
    ActionFindings(actions, Gr001("p_inflam_iron_seq" in signals))
    + ActionFindings(actions, Gr003())
    + ActionFindings(actions, Gr004())
    + Gr005(HypothesesOf(out), LabMarkers(labs))
  }

  // ------------------------------------------------------------ the loops

  /** `for i, action in enumerate(patient_actions)` for one rule. */
  method ScreenActions(actions: seq<PatientAction>, rule: PatientAction -> Option<RuleFailure>)
    returns (failed: seq<RuleFailure>, patches: seq<Patch>)
    ensures failed == RulesOf(ActionFindings(actions, rule))
    ensures patches == PatchesOf(ActionFindings(actions, rule))
  {
    failed, patches := [], [];
    for i := 0 to |actions|
      invariant failed == RulesOf(ActionFindings(actions[..i], rule))
      invariant patches == PatchesOf(ActionFindings(actions[..i], rule))
    {
      assert actions[..i + 1][..i] == actions[..i];
      var tail := match rule(actions[i]) { case None => [] case Some(r) => [Finding(r, Remove(ActionPath(i)))] };
      assert ActionFindings(actions[..i + 1], rule) == ActionFindings(actions[..i], rule) + tail;
      RulesAndPatchesAppend(ActionFindings(actions[..i], rule), tail);
      var verdict := rule(actions[i]);
      if verdict.Some? {
        failed := failed + [verdict.value];
        patches := patches + [Remove(ActionPath(i))];
      }
    }
    assert actions[..|actions|] == actions;
  }

  /** The inner GR_005 loop over one hypothesis's evidence. */
  method ScreenEvidence(h: nat, evidence: seq<EvidenceRef>, markers: seq<string>)
    returns (failed: seq<RuleFailure>, patches: seq<Patch>)
    ensures failed == RulesOf(EvidenceFindings(h, evidence, markers))
    ensures patches == PatchesOf(EvidenceFindings(h, evidence, markers))
  {
    failed, patches := [], [];
    for e := 0 to |evidence|
      invariant failed == RulesOf(EvidenceFindings(h, evidence[..e], markers))
      invariant patches == PatchesOf(EvidenceFindings(h, evidence[..e], markers))
    {
      assert evidence[..e + 1][..e] == evidence[..e];
      var marker := evidence[e].marker;
      var tail := if marker in markers then [] else [MarkerFinding(h, e, marker)];
      assert EvidenceFindings(h, evidence[..e + 1], markers) == EvidenceFindings(h, evidence[..e], markers) + tail;
      RulesAndPatchesAppend(EvidenceFindings(h, evidence[..e], markers), tail);
      if marker !in markers {
        failed := failed + [RuleFailure("GR_005", "Marker '" + marker + "' not in input.")];
        patches := patches + [Remove(EvidencePath(h, e))];
      }
    }
    assert evidence[..|evidence|] == evidence;
  }

  /** The outer GR_005 loop over the hypotheses. */
  method ScreenHypotheses(hypotheses: seq<Hypothesis>, markers: seq<string>)
    returns (failed: seq<RuleFailure>, patches: seq<Patch>)
    ensures failed == RulesOf(Gr005(hypotheses, markers))
    ensures patches == PatchesOf(Gr005(hypotheses, markers))
  {
    failed, patches := [], [];
    for h := 0 to |hypotheses|
      invariant failed == RulesOf(Gr005(hypotheses[..h], markers))
      invariant patches == PatchesOf(Gr005(hypotheses[..h], markers))
    {
      assert hypotheses[..h + 1][..h] == hypotheses[..h];
      var f, p := ScreenEvidence(h, hypotheses[h].evidence, markers);
      RulesAndPatchesAppend(Gr005(hypotheses[..h], markers), EvidenceFindings(h, hypotheses[h].evidence, markers));
      failed := failed + f;
      patches := patches + p;
    }
    assert hypotheses[..|hypotheses|] == hypotheses;
  }

  /** `check_guardrails`: the failures and patches of every rule, GR_001 first
      and GR_005 last, with FAIL exactly when some rule fired. */
  method CheckGuardrails(out: ReasonerOutput, card: CaseCard, labs: seq<NormalizedLab>) returns (report: GuardrailReport)
    ensures report.failedRules == RulesOf(Findings(out, card.signals, labs))
    ensures report.patches == PatchesOf(Findings(out, card.signals, labs))
    ensures report.status == Fail <==> report.failedRules != []
    ensures report.status == Pass <==> report.patches == []
  {
    var inflammation := "p_inflam_iron_seq" in card.signals;
    var actions := ActionsOf(out);
    var f1, p1 := ScreenActions(actions, Gr001(inflammation));
    var f3, p3 := ScreenActions(actions, Gr003());
    var f4, p4 := ScreenActions(actions, Gr004());
    var markers := LabMarkers(labs);
    var f5, p5 := ScreenHypotheses(HypothesesOf(out), markers);
    var a1 := ActionFindings(actions, Gr001(inflammation));
    var a3 := ActionFindings(actions, Gr003());
    var a4 := ActionFindings(actions, Gr004());
    var a5 := Gr005(HypothesesOf(out), markers);
    RulesAndPatchesAppend(a1, a3);
    RulesAndPatchesAppend(a1 + a3, a4);
    RulesAndPatchesAppend(a1 + a3 + a4, a5);
    var failedRules := f1 + f3 + f4 + f5;
    var patches := p1 + p3 + p4 + p5;
    report := GuardrailReport(if failedRules != [] then Fail else Pass, failedRules, patches);
  }

  // ------------------------------------------------------------ properties

  /** The positions of the actions a rule fires on, ascending. */
  function FiredIndices(actions: seq<PatientAction>, rule: PatientAction -> Option<RuleFailure>): seq<nat> {
    if actions == [] then []
    else
      var i := |actions| - 1;
      FiredIndices(actions[..i], rule) + if rule(actions[i]).Some? then [i] else []
  }

  /** A per-action rule reports one finding for each action it fires on and
      for no other, in ascending action order, each carrying the rule's
      failure and a patch removing that action. */
  lemma {:induction false} ActionFindingsShape(actions: seq<PatientAction>, rule: PatientAction -> Option<RuleFailure>)
    ensures var fs, ix := ActionFindings(actions, rule), FiredIndices(actions, rule);
      && |fs| == |ix|
      && (forall k :: 0 <= k < |ix| ==>
            ix[k] < |actions| && rule(actions[ix[k]]) == Some(fs[k].rule) && fs[k].patch == Remove(ActionPath(ix[k])))
      && (forall k, l :: 0 <= k < l < |ix| ==> ix[k] < ix[l])
      && (forall i :: 0 <= i < |actions| ==> (rule(actions[i]).Some? <==> i in ix))
  {
    if actions != [] {
      var n := |actions| - 1;
      var init := actions[..n];
      ActionFindingsShape(init, rule);
      var fs0, ix0 := ActionFindings(init, rule), FiredIndices(init, rule);
      forall k | 0 <= k < |ix0| ensures ix0[k] < n && init[ix0[k]] == actions[ix0[k]] {
      }
    }
  }

  /** Rank of a rule in the report: GR_001, GR_003, GR_004, then GR_005. */
  function RuleRank(id: string): nat {
    if id == "GR_001" then 1 else if id == "GR_003" then 3 else if id == "GR_004" then 4 else 5
  }

  /** Every finding in `fs` is a failure of rule `id`. */
  predicate AllOfRule(fs: seq<Finding>, id: string) {
    forall k :: 0 <= k < |fs| ==> fs[k].rule.id == id
  }

  lemma {:induction false} ActionFindingsAllOneRule(actions: seq<PatientAction>, rule: PatientAction -> Option<RuleFailure>, id: string)
    requires forall a :: rule(a).Some? ==> rule(a).value.id == id
    ensures AllOfRule(ActionFindings(actions, rule), id)
  {
    if actions != [] {
      ActionFindingsAllOneRule(actions[..|actions| - 1], rule, id);
    }
  }

  lemma {:induction false} Gr005AllOneRule(hypotheses: seq<Hypothesis>, markers: seq<string>)
    ensures AllOfRule(Gr005(hypotheses, markers), "GR_005")
  {
    if hypotheses != [] {
      var h := |hypotheses| - 1;
      Gr005AllOneRule(hypotheses[..h], markers);
      EvidenceAllOneRule(h, hypotheses[h].evidence, markers);
    }
  }

  lemma {:induction false} EvidenceAllOneRule(h: nat, evidence: seq<EvidenceRef>, markers: seq<string>)
    ensures AllOfRule(EvidenceFindings(h, evidence, markers), "GR_005")
  {
    if evidence != [] {
      EvidenceAllOneRule(h, evidence[..|evidence| - 1], markers);
    }
  }

  /** The report lists every GR_001 failure, then every GR_003, GR_004 and
      GR_005 failure, in that order. */
  lemma FindingsRuleOrder(out: ReasonerOutput, signals: seq<string>, labs: seq<NormalizedLab>)
    ensures var fs := Findings(out, signals, labs);
      forall k, l :: 0 <= k < l < |fs| ==> RuleRank(fs[k].rule.id) <= RuleRank(fs[l].rule.id)
  {
    var actions := ActionsOf(out);
    var a1 := ActionFindings(actions, Gr001("p_inflam_iron_seq" in signals));
    var a3 := ActionFindings(actions, Gr003());
    var a4 := ActionFindings(actions, Gr004());
    var a5 := Gr005(HypothesesOf(out), LabMarkers(labs));
    ActionFindingsAllOneRule(actions, Gr001("p_inflam_iron_seq" in signals), "GR_001");
    ActionFindingsAllOneRule(actions, Gr003(), "GR_003");
    ActionFindingsAllOneRule(actions, Gr004(), "GR_004");
    Gr005AllOneRule(HypothesesOf(out), LabMarkers(labs));
    assert Findings(out, signals, labs) == a1 + a3 + a4 + a5;
    RanksAscend(a1, a3, a4, a5);
  }

  lemma RanksAscend(a1: seq<Finding>, a3: seq<Finding>, a4: seq<Finding>, a5: seq<Finding>)
    requires AllOfRule(a1, "GR_001") && AllOfRule(a3, "GR_003") && AllOfRule(a4, "GR_004") && AllOfRule(a5, "GR_005")
    ensures var fs := a1 + a3 + a4 + a5;
      forall k, l :: 0 <= k < l < |fs| ==> RuleRank(fs[k].rule.id) <= RuleRank(fs[l].rule.id)
  {
    var fs := a1 + a3 + a4 + a5;
    forall k | 0 <= k < |fs|
      ensures RuleRank(fs[k].rule.id) == if k < |a1| then 1 else if k < |a1| + |a3| then 3 else if k < |a1| + |a3| + |a4| then 4 else 5
    {
      if k < |a1| { assert fs[k] == a1[k]; }
      else if k < |a1| + |a3| { assert fs[k] == a3[k - |a1|]; }
      else if k < |a1| + |a3| + |a4| { assert fs[k] == a4[k - |a1| - |a3|]; }
      else { assert fs[k] == a5[k - |a1| - |a3| - |a4|]; }
    }
  }

  /** Evidence item `e` of hypothesis `h` names a marker missing from the
      input, and `f` is its GR_005 finding. */
  predicate ReportsItem(evidence: seq<EvidenceRef>, markers: seq<string>, h: nat, e: nat, f: Finding) {
    e < |evidence| && evidence[e].marker !in markers && f == MarkerFinding(h, e, evidence[e].marker)
  }

  /** GR_005 reports an evidence item of a hypothesis exactly when its marker
      is not an input marker. */
  lemma {:induction false} EvidenceFindingsMembers(h: nat, evidence: seq<EvidenceRef>, markers: seq<string>, f: Finding)
    ensures f in EvidenceFindings(h, evidence, markers) <==> exists e: nat :: ReportsItem(evidence, markers, h, e, f)
  {
    if evidence != [] {
      var n := |evidence| - 1;
      var init := evidence[..n];
      var tail := if evidence[n].marker in markers then [] else [MarkerFinding(h, n, evidence[n].marker)];
      assert EvidenceFindings(h, evidence, markers) == EvidenceFindings(h, init, markers) + tail;
      EvidenceFindingsMembers(h, init, markers, f);
      if f in tail {
        assert ReportsItem(evidence, markers, h, n, f);
      }
      if f in EvidenceFindings(h, init, markers) {
        var e: nat :| ReportsItem(init, markers, h, e, f);
        assert ReportsItem(evidence, markers, h, e, f);
      }
      if exists e: nat :: ReportsItem(evidence, markers, h, e, f) {
        var e: nat :| ReportsItem(evidence, markers, h, e, f);
        if e < n {
          assert ReportsItem(init, markers, h, e, f);
        }
      }
    }
  }

  /** GR_005 over all hypotheses: one finding per evidence item whose marker
      is missing from the input, and no other. */
  lemma Gr005Members(hypotheses: seq<Hypothesis>, markers: seq<string>, f: Finding)
    ensures f in Gr005(hypotheses, markers) <==>
      exists h: nat, e: nat :: h < |hypotheses| && ReportsItem(hypotheses[h].evidence, markers, h, e, f)
  {
    if f in Gr005(hypotheses, markers) {
      Gr005Sound(hypotheses, markers, f);
    }
    if exists h: nat, e: nat :: h < |hypotheses| && ReportsItem(hypotheses[h].evidence, markers, h, e, f) {
      var h: nat, e: nat :| h < |hypotheses| && ReportsItem(hypotheses[h].evidence, markers, h, e, f);
      Gr005Complete(hypotheses, markers, f, h, e);
    }
  }

  lemma {:induction false} Gr005Sound(hypotheses: seq<Hypothesis>, markers: seq<string>, f: Finding)
    requires f in Gr005(hypotheses, markers)
    ensures exists h: nat, e: nat :: h < |hypotheses| && ReportsItem(hypotheses[h].evidence, markers, h, e, f)
  {
    var n := |hypotheses| - 1;
    var init := hypotheses[..n];
    var last := EvidenceFindings(n, hypotheses[n].evidence, markers);
    assert Gr005(hypotheses, markers) == Gr005(init, markers) + last;
    if f in last {
      EvidenceFindingsMembers(n, hypotheses[n].evidence, markers, f);
      var e: nat :| ReportsItem(hypotheses[n].evidence, markers, n, e, f);
      assert n < |hypotheses| && ReportsItem(hypotheses[n].evidence, markers, n, e, f);
    } else {
      assert f in Gr005(init, markers);
      Gr005Sound(init, markers, f);
      var h: nat, e: nat :| h < |init| && ReportsItem(init[h].evidence, markers, h, e, f);
      assert hypotheses[h] == init[h];
      assert h < |hypotheses| && ReportsItem(hypotheses[h].evidence, markers, h, e, f);
    }
  }

  lemma {:induction false} Gr005Complete(hypotheses: seq<Hypothesis>, markers: seq<string>, f: Finding, h: nat, e: nat)
    requires h < |hypotheses| && ReportsItem(hypotheses[h].evidence, markers, h, e, f)
    ensures f in Gr005(hypotheses, markers)
  {
    var n := |hypotheses| - 1;
    var init := hypotheses[..n];
    var last := EvidenceFindings(n, hypotheses[n].evidence, markers);
    assert Gr005(hypotheses, markers) == Gr005(init, markers) + last;
    if h < n {
      assert init[h] == hypotheses[h];
      Gr005Complete(init, markers, f, h, e);
    } else {
      EvidenceFindingsMembers(n, hypotheses[n].evidence, markers, f);
    }
  }

  /** An action that mentions a dose and names no bucket is targeted by two
      identical patches: one from GR_003 and a later one from GR_004. */
  lemma DoublyFlaggedActionPatchedTwice(out: ReasonerOutput, signals: seq<string>, labs: seq<NormalizedLab>, i: nat)
    requires i < |ActionsOf(out)|
    requires Gr003()(ActionsOf(out)[i]).Some? && Gr004()(ActionsOf(out)[i]).Some?
    ensures var ps := PatchesOf(Findings(out, signals, labs));
      exists p, q :: 0 <= p < q < |ps| && ps[p] == Remove(ActionPath(i)) && ps[q] == Remove(ActionPath(i))
  {
    var actions := ActionsOf(out);
    var a1 := ActionFindings(actions, Gr001("p_inflam_iron_seq" in signals));
    var a3 := ActionFindings(actions, Gr003());
    var a4 := ActionFindings(actions, Gr004());
    var a5 := Gr005(HypothesesOf(out), LabMarkers(labs));
    var k3 := FindingForFiredAction(actions, Gr003(), i);
    var k4 := FindingForFiredAction(actions, Gr004(), i);
    assert Findings(out, signals, labs) == a1 + a3 + a4 + a5;
    PatchTwiceInReport(a1, a3, a4, a5, k3, k4, Remove(ActionPath(i)));
  }

  lemma PatchTwiceInReport(a1: seq<Finding>, a3: seq<Finding>, a4: seq<Finding>, a5: seq<Finding>, k3: nat, k4: nat, p: Patch)
    requires k3 < |a3| && a3[k3].patch == p && k4 < |a4| && a4[k4].patch == p
    ensures var ps := PatchesOf(a1 + a3 + a4 + a5);
      exists x, y :: 0 <= x < y < |ps| && ps[x] == p && ps[y] == p
  {
    var fs := a1 + a3 + a4 + a5;
    assert fs[|a1| + k3] == a3[k3];
    assert fs[|a1| + |a3| + k4] == a4[k4];
    var ps := PatchesOf(fs);
    assert ps[|a1| + k3] == p && ps[|a1| + |a3| + k4] == p;
  }

  /** Where a rule fires on action `i`, its findings hold the removal of `i`. */
  lemma FindingForFiredAction(actions: seq<PatientAction>, rule: PatientAction -> Option<RuleFailure>, i: nat) returns (k: nat)
    requires i < |actions| && rule(actions[i]).Some?
    ensures k < |ActionFindings(actions, rule)| && ActionFindings(actions, rule)[k].patch == Remove(ActionPath(i))
  {
    ActionFindingsShape(actions, rule);
    var ix := FiredIndices(actions, rule);
    k :| 0 <= k < |ix| && ix[k] == i;
  }

  /** A task shorter than every bucket name names no bucket. */
  lemma ShortTaskNamesNoBucket(task: string)
    requires |task| <= 4
    ensures !ContainsAny(task, AllowedBuckets)
  {
    forall i | 0 <= i < |AllowedBuckets| ensures !Contains(task, AllowedBuckets[i]) {
      assert |AllowedBuckets[i]| > 4;
    }
  }

  /** A one-action output whose task is "dose" gets two patches for action 0. */
  lemma DoseTaskPatchedTwice(bucket: string, why: string, risk: string)
    ensures PatchesOf(Findings(Reasoned([], [PatientAction(bucket, "dose", why, risk)], []), [], []))
         == [Remove("/patient_actions/0"), Remove("/patient_actions/0")]
  {
    var a := PatientAction(bucket, "dose", why, risk);
    assert Lower("dose") == "dose";
    assert OccursAt("dose", DosingWords[1], 0);
    ContainsAt("dose", DosingWords[1], 0);
    ShortTaskNamesNoBucket("dose");
    assert Gr003()(a).Some? && Gr004()(a).Some? && Gr001(false)(a).None?;
    var out := Reasoned([], [a], []);
    SingleActionFindings(a, Gr001(false));
    SingleActionFindings(a, Gr003());
    SingleActionFindings(a, Gr004());
    assert Gr005([], LabMarkers([])) == [];
    assert ActionPath(0) == "/patient_actions/0" by { assert NatToString(0) == "0"; }
  }

  lemma SingleActionFindings(a: PatientAction, rule: PatientAction -> Option<RuleFailure>)
    ensures ActionFindings([a], rule) == match rule(a) { case None => [] case Some(r) => [Finding(r, Remove(ActionPath(0)))] }
  {
    assert [a][..0] == [];
  }

  /** "test" is not the bucket "tests": a task reading just "Test" fails GR_004. */
  lemma SingularTestNamesNoBucket(bucket: string, why: string, risk: string)
    ensures Gr004()(PatientAction(bucket, "Test", why, risk)) == Some(RuleFailure("GR_004", "Action '" + "Test" + "' not in allowed buckets."))
  {
    assert Lower("Test") == "test";
    ShortTaskNamesNoBucket("test");
  }
}
