/** When an agentic model call is made instead of the rule-based fallback,
    the token budget of such a call, and the repair of the JSON an agent
    returns. The model call itself is not part of this module: `call_agent`
    hands the decision to the caller, which runs the rules when it is "no". */
module AgentManager {
  import opened Wrappers
  import opened Strings
  import Sorting

  // -------------------------------------------------------- feature flags

  /** The process environment: the variables that are set, with their text. */
  type Env = map<string, string>

  /** The settings that switch a flag off, after strip and lowercase. */
  const OffWords: seq<string> := ["0", "false", "no", "off", ""]

  /** `_env_enabled(key, default)`. */
  predicate EnvEnabled(env: Env, key: string, default: bool) {
    if key !in env then default else Lower(Strip(env[key])) !in OffWords
  }

  /** Blanks are never part of what `strip()` leaves at the front. */
  lemma StripLeftBlankFirst(c: char, s: string)
    requires IsSpace(c)
    ensures StripLeft([c] + s) == StripLeft(s)
  {
    assert ([c] + s)[1..] == s;
  }

  /** `strip()` of a string with a blank appended leaves the same text. */
  lemma {:induction false} StripBlankLast(s: string, c: char)
    requires IsSpace(c)
    ensures Strip(s + [c]) == Strip(s)
  {
    if s == [] {
      assert StripLeft([c]) == StripLeft([c][1..]);
    } else if IsSpace(s[0]) {
      assert (s + [c])[1..] == s[1..] + [c];
      StripBlankLast(s[1..], c);
    } else {
      var t := s + [c];
      assert StripLeft(t) == t && StripLeft(s) == s;
      assert t[..|t| - 1] == s;
    }
  }

  /** The setting's surrounding blanks do not matter. */
  lemma EnvEnabledIgnoresBlanks(env: Env, key: string, default: bool, raw: string, c: char)
    requires IsSpace(c)
    ensures EnvEnabled(env[key := [c] + raw], key, default) == EnvEnabled(env[key := raw], key, default)
    ensures EnvEnabled(env[key := raw + [c]], key, default) == EnvEnabled(env[key := raw], key, default)
  {
    StripLeftBlankFirst(c, raw);
    StripBlankLast(raw, c);
  }

  /** Changing the case of a letter never makes it a blank or stops it being one. */
  lemma UpperKeepsBlanks(c: char)
    ensures IsSpace(UpperChar(c)) == IsSpace(c)
  {
  }

  lemma {:induction false} StripLeftUpper(s: string)
    ensures StripLeft(Upper(s)) == Upper(StripLeft(s))
  {
    if s != [] {
      UpperKeepsBlanks(s[0]);
      assert Upper(s)[1..] == Upper(s[1..]);
      if IsSpace(s[0]) {
        StripLeftUpper(s[1..]);
      }
    }
  }

  lemma {:induction false} StripRightUpper(s: string)
    ensures StripRight(Upper(s)) == Upper(StripRight(s))
  {
    if s != [] {
      var n := |s| - 1;
      var u := Upper(s);
      assert u[n] == UpperChar(s[n]);
      UpperKeepsBlanks(s[n]);
      if IsSpace(s[n]) {
        assert u[..n] == Upper(s[..n]);
        assert StripRight(u) == StripRight(u[..n]);
        assert StripRight(s) == StripRight(s[..n]);
        StripRightUpper(s[..n]);
      } else {
        assert StripRight(u) == u;
        assert StripRight(s) == s;
      }
    }
  }

  lemma StripUpper(s: string)
    ensures Strip(Upper(s)) == Upper(Strip(s))
  {
    StripLeftUpper(s);
    StripRightUpper(StripLeft(s));
  }

  lemma LowerOfUpper(t: string)
    ensures Lower(Upper(t)) == Lower(t)
  {
    forall k | 0 <= k < |t|
      ensures Lower(Upper(t))[k] == Lower(t)[k]
    {
    }
  }

  /** The setting is read without regard to case: "OFF" switches a flag off
      like "off" does. */
  lemma EnvEnabledIgnoresCase(env: Env, key: string, default: bool, raw: string)
    ensures EnvEnabled(env[key := Upper(raw)], key, default) == EnvEnabled(env[key := raw], key, default)
  {
    StripUpper(raw);
    LowerOfUpper(Strip(raw));
  }

  /** A word of lower-case letters and digits is read as itself. */
  lemma PlainWordReadsAsItself(w: string)
    requires w != []
    requires forall k :: 0 <= k < |w| ==> 'a' <= w[k] <= 'z' || '0' <= w[k] <= '9'
    ensures Lower(Strip(w)) == w
  {
    StripNonBlankEnds(w);
  }

  /** A setting read as a word that is not an off word switches a flag on,
      whatever its default. */
  lemma EnvEnabledByWord(env: Env, key: string, default: bool, raw: string)
    requires forall k :: 0 <= k < |OffWords| ==> Lower(Strip(raw)) != OffWords[k]
    ensures EnvEnabled(env[key := raw], key, default)
  {
  }

  /** "1" and "yes" switch a flag on, whatever its default. */
  lemma EnvEnabledOnWords(env: Env, key: string, default: bool)
    ensures EnvEnabled(env[key := "1"], key, default) && EnvEnabled(env[key := "yes"], key, default)
  {
    OnWord(env, key, default, "1");
    OnWord(env, key, default, "yes");
  }

  /** A plain word that is not an off word switches a flag on. */
  lemma OnWord(env: Env, key: string, default: bool, w: string)
    requires w != [] && forall k :: 0 <= k < |w| ==> 'a' <= w[k] <= 'z' || '0' <= w[k] <= '9'
    requires w !in OffWords
    ensures EnvEnabled(env[key := w], key, default)
  {
    PlainWordReadsAsItself(w);
  }

  /** "off" and the empty setting switch a flag off, whatever its default. */
  lemma EnvEnabledOffWords(env: Env, key: string, default: bool)
    ensures !EnvEnabled(env[key := "off"], key, default) && !EnvEnabled(env[key := ""], key, default)
  {
    PlainWordReadsAsItself("off");
    assert Lower(Strip("")) == "";
  }

  // ------------------------------------------------------- decision rules

  /** The agent types `should_use_agent` knows. */
  datatype AgentType =
    | ContextSelection
    | EvidenceWeighting
    | HypothesisGeneration
    | TestRecommendation
    | ActionGeneration
    | GuardrailExplanation
    | NovelInsight

  function AgentTypeOf(name: string): Option<AgentType> {
    if name == "context_selection" then Some(ContextSelection)
    else if name == "evidence_weighting" then Some(EvidenceWeighting)
    else if name == "hypothesis_generation" then Some(HypothesisGeneration)
    else if name == "test_recommendation" then Some(TestRecommendation)
    else if name == "action_generation" then Some(ActionGeneration)
    else if name == "guardrail_explanation" then Some(GuardrailExplanation)
    else if name == "novel_insight" then Some(NovelInsight)
    else None
  }

  /** The environment variable that switches an agent type on (all default off). */
  function FlagOf(t: AgentType): string {
    match t
    case ContextSelection => "USE_CONTEXT_SELECTION_MODEL"
    case EvidenceWeighting => "USE_EVIDENCE_WEIGHTING_MODEL"
    case HypothesisGeneration => "USE_HYPOTHESIS_GENERATION_MODEL"
    case TestRecommendation => "USE_TEST_RECOMMENDATION_MODEL"
    case ActionGeneration => "USE_ACTION_GENERATION_MODEL"
    case GuardrailExplanation => "USE_GUARDRAIL_EXPLANATION_MODEL"
    case NovelInsight => "USE_NOVEL_INSIGHT_MODEL"
  }

  /** What a hypothesis contributes to the test-recommendation decision. */
  datatype HypothesisSummary = HypothesisSummary(confidence: real, nextTests: Json)

  /** The decision context. Missing entries take the source's defaults: no
      markers, an empty patient context, no evidence, confidence 0, margin 1,
      counts 0 and all switches off. */
  datatype DecisionContext = DecisionContext(
    abnormalMarkers: seq<string>,
    patientContext: map<string, Json>,
    marker: Option<string>,
    status: Option<string>,
    supportPatterns: seq<Option<string>>,
    contradictionPatterns: seq<Option<string>>,
    hypotheses: seq<HypothesisSummary>,
    guardrailFailed: bool,
    forceNovelty: bool,
    topConfidence: real,
    confidenceMargin: real,
    contradictionCount: int,
    supportCount: int)

  const ContextComplexity: int := 3
  const AmbiguityThreshold: real := 0.15
  const NoveltyConfidenceFloor: real := 0.55

  const CommonPanels: seq<set<string>> := [{"Ferritin", "Iron", "TSAT"}, {"TSH", "FT4", "FT3"}, {"hsCRP", "Ferritin"}]

  /** The loop over the common panels: the first panel that contains the
      markers or is contained in them ends the search. */
  function NoPanelCovers(ms: set<string>, panels: seq<set<string>>): (r: bool)
    ensures r <==> forall i :: 0 <= i < |panels| ==> !(ms <= panels[i]) && !(panels[i] <= ms)
  {
    if panels == [] then true
    else if ms <= panels[0] || panels[0] <= ms then false
    else NoPanelCovers(ms, panels[1..])
  }

  function MarkerSet(markers: seq<string>): set<string> {
    set m | m in markers
  }

  /** `_has_unusual_combinations`. */
  predicate UnusualCombination(markers: seq<string>) {
    NoPanelCovers(MarkerSet(markers), CommonPanels)
  }

  /** No markers at all, or markers all drawn from one panel, are usual; so is
      any selection containing a whole panel, whatever else it holds. */
  lemma UsualCombinations(markers: seq<string>, i: nat)
    requires i < |CommonPanels|
    requires (forall m :: m in markers ==> m in CommonPanels[i]) || CommonPanels[i] <= MarkerSet(markers)
    ensures !UnusualCombination(markers)
  {
  }

  /** A marker outside every panel, alone, is unusual. */
  lemma LoneOutsiderIsUnusual(m: string)
    requires forall i :: 0 <= i < |CommonPanels| ==> m !in CommonPanels[i]
    ensures UnusualCombination([m])
  {
    assert MarkerSet([m]) == {m};
    forall i | 0 <= i < |CommonPanels|
      ensures !({m} <= CommonPanels[i]) && !(CommonPanels[i] <= {m})
    {
      assert "Ferritin" in CommonPanels[i] || "TSH" in CommonPanels[i];
    }
  }

  /** `_has_comorbidities`: a truthy comorbidity list, or an age above 65.
      Ages are numbers here; an absent or zero age is not above 65. */
  predicate HasComorbidities(patient: map<string, Json>) {
    Truthy(Get(patient, "comorbidities"))
    || (match Get(patient, "age") case JNum(age) => age > 65.0 case _ => false)
  }

  /** With a numeric age and a comorbidity list, the patient counts as having
      comorbidities exactly when the list is non-empty or the age is above 65. */
  lemma HasComorbiditiesCases(patient: map<string, Json>, age: real, conditions: seq<Json>)
    requires Get(patient, "age") == JNum(age) && Get(patient, "comorbidities") == JList(conditions)
    ensures HasComorbidities(patient) <==> conditions != [] || age > 65.0
  {
  }

  /** The age bound is strict: 66 counts, 65 with no conditions does not, and
      neither does a patient with nothing recorded. */
  lemma AgeThreshold()
    ensures HasComorbidities(map["age" := JNum(66.0)])
    ensures !HasComorbidities(map["age" := JNum(65.0), "comorbidities" := JList([])])
    ensures !HasComorbidities(map[])
  {
    HasComorbiditiesCases(map["age" := JNum(65.0), "comorbidities" := JList([])], 65.0, []);
  }

  const CommonCombinations: seq<(string, string)> := [
    ("hsCRP", "HIGH"), ("Ferritin", "HIGH"), ("Ferritin", "LOW"), ("Iron", "LOW"),
    ("TSAT", "LOW"), ("Hb", "LOW"), ("TSH", "HIGH"), ("FT4", "LOW")]

  /** `_is_rare_combination`: the marker/status pair is not a common one. A
      missing marker or status is never common. */
  function RareCombination(marker: Option<string>, status: Option<string>): (r: bool)
    ensures marker.None? || status.None? ==> r
    ensures !r ==> status.value == "HIGH" || status.value == "LOW"
  {
    !(marker.Some? && status.Some? && (marker.value, status.value) in CommonCombinations)
  }

  /** `_has_conflicts`: some pattern id (possibly missing on both sides) is
      both supported and contradicted. */
  function HasConflicts(supports: seq<Option<string>>, contradictions: seq<Option<string>>): (r: bool)
    ensures r <==> exists i, j :: 0 <= i < |supports| && 0 <= j < |contradictions| && supports[i] == contradictions[j]
  {
    if supports != [] && contradictions != [] then
      var shared := (set p | p in supports) * (set p | p in contradictions);
      if shared != {} then
        var p :| p in shared;
        assert p in supports && p in contradictions;
        true
      else
        assert forall i, j :: 0 <= i < |supports| && 0 <= j < |contradictions| ==> supports[i] !in shared || supports[i] != contradictions[j];
        false
    else false
  }

  /** `sorted(..., key=confidence, reverse=True)` compares with `>=`. */
  function Descending(): (real, real) -> bool {
    (a: real, b: real) => a >= b
  }

  /** `_has_ambiguity`: at least two hypotheses and the two best within 0.15. */
  predicate HasAmbiguity(confidences: seq<real>) {
    |confidences| >= 2 &&
    var sorted := Sorting.SortBy(confidences, Descending());
    sorted[0] - sorted[1] < AmbiguityThreshold
  }

  /** Removing the element at `i` removes one occurrence of its value. */
  lemma RemoveAt(cs: seq<real>, i: nat)
    requires i < |cs|
    ensures multiset(cs[..i] + cs[i + 1..]) == multiset(cs) - multiset{cs[i]}
  {
    assert cs == cs[..i] + [cs[i]] + cs[i + 1..];
  }

  /** In a descending sequence with the same elements, the first is the best. */
  lemma FirstOfDescending(cs: seq<real>, s: seq<real>, i: nat)
    requires i < |cs| && multiset(s) == multiset(cs)
    requires forall a, b :: 0 <= a < b < |s| ==> s[a] >= s[b]
    requires forall k :: 0 <= k < |cs| ==> cs[k] <= cs[i]
    ensures |s| > 0 && s[0] == cs[i]
  {
    assert cs[i] in multiset(s);
    assert |s| > 0;
    assert s[0] in multiset(cs);
  }

  /** Another position's value survives removing the element at `i`. */
  lemma OtherSurvivesRemoval(cs: seq<real>, i: nat, j: nat)
    requires i < |cs| && j < |cs| && i != j
    ensures cs[j] in multiset(cs) - multiset{cs[i]}
  {
    var rm := cs[..i] + cs[i + 1..];
    RemoveAt(cs, i);
    if j < i { assert rm[j] == cs[j]; } else { assert rm[j - 1] == cs[j]; }
  }

  /** The second of a descending sequence bounds everything after the first. */
  lemma SecondBoundsRest(s: seq<real>, x: real)
    requires |s| >= 2 && forall a, b :: 0 <= a < b < |s| ==> s[a] >= s[b]
    requires x in multiset(s[1..])
    ensures s[1] >= x
  {
    var c :| 0 <= c < |s| - 1 && s[1..][c] == x;
    assert s[c + 1] == x;
  }

  /** ... and the second is at least the best of the others, which is
      among the rest ... */
  lemma SecondAtLeastRunnerUp(cs: seq<real>, s: seq<real>, i: nat, j: nat)
    requires i < |cs| && j < |cs| && i != j && multiset(s) == multiset(cs)
    requires forall a, b :: 0 <= a < b < |s| ==> s[a] >= s[b]
    requires |s| >= 2 && s[0] == cs[i]
    ensures s[1] >= cs[j]
  {
    assert s == [s[0]] + s[1..];
    assert multiset(s[1..]) == multiset(cs) - multiset{cs[i]};
    OtherSurvivesRemoval(cs, i, j);
    SecondBoundsRest(s, cs[j]);
  }

  /** ... and at most it, being one of the others. */
  lemma SecondAtMostRunnerUp(cs: seq<real>, s: seq<real>, i: nat, j: nat)
    requires i < |cs| && j < |cs| && i != j && multiset(s) == multiset(cs)
    requires |s| >= 2 && s[0] == cs[i]
    requires forall k :: 0 <= k < |cs| && k != i ==> cs[k] <= cs[j]
    ensures s[1] <= cs[j]
  {
    var rm := cs[..i] + cs[i + 1..];
    RemoveAt(cs, i);
    assert s == [s[0]] + s[1..];
    assert multiset(s[1..]) == multiset(rm);
    assert s[1] in multiset(rm) by { assert s[1..][0] == s[1]; }
    var k :| 0 <= k < |rm| && rm[k] == s[1];
    if k < i { assert rm[k] == cs[k]; } else { assert rm[k] == cs[k + 1]; }
  }

  /** Sorting by `Descending` puts the confidences in non-increasing order. */
  lemma SortedDescending(cs: seq<real>, s: seq<real>)
    requires s == Sorting.SortBy(cs, Descending())
    ensures multiset(s) == multiset(cs)
    ensures forall a, b :: 0 <= a < b < |s| ==> s[a] >= s[b]
  {
    var le := Descending();
    assert Sorting.TotalPreorder(le);
    Sorting.SortByIsSorted(cs, le);
    forall a, b | 0 <= a < b < |s| ensures s[a] >= s[b] {
      assert le(s[a], s[b]);
    }
  }

  /** After sorting, the first two are the best confidence and the best of
      the others. */
  lemma TopTwoOfSorted(confidences: seq<real>, i: nat, j: nat)
    requires i < |confidences| && j < |confidences| && i != j
    requires forall k :: 0 <= k < |confidences| ==> confidences[k] <= confidences[i]
    requires forall k :: 0 <= k < |confidences| && k != i ==> confidences[k] <= confidences[j]
    ensures var sorted := Sorting.SortBy(confidences, Descending());
      sorted[0] == confidences[i] && sorted[1] == confidences[j]
  {
    var s := Sorting.SortBy(confidences, Descending());
    SortedDescending(confidences, s);
    FirstOfDescending(confidences, s, i);
    SecondAtLeastRunnerUp(confidences, s, i, j);
    SecondAtMostRunnerUp(confidences, s, i, j);
  }

  /** Ambiguity compares the best confidence with the best of the others. */
  lemma AmbiguityIsTopTwoGap(confidences: seq<real>, i: nat, j: nat)
    requires i < |confidences| && j < |confidences| && i != j
    requires forall k :: 0 <= k < |confidences| ==> confidences[k] <= confidences[i]
    requires forall k :: 0 <= k < |confidences| && k != i ==> confidences[k] <= confidences[j]
    ensures HasAmbiguity(confidences) <==> confidences[i] - confidences[j] < AmbiguityThreshold
  {
    TopTwoOfSorted(confidences, i, j);
  }

  function Confidences(hs: seq<HypothesisSummary>): (cs: seq<real>)
    ensures |cs| == |hs|
  {
    seq(|hs|, k requires 0 <= k < |hs| => hs[k].confidence)
  }

  /** The novel-insight trigger: forced, a weak best hypothesis, a small margin,
      or contradictions that are present and not outnumbered. */
  predicate NoveltyTriggered(ctx: DecisionContext) {
    ctx.forceNovelty
    || ctx.topConfidence < NoveltyConfidenceFloor
    || ctx.confidenceMargin < AmbiguityThreshold
    || (ctx.contradictionCount > 0 && ctx.contradictionCount >= ctx.supportCount)
  }

  /** The per-type rule once the type's flag is on. */
  predicate RuleSaysUse(t: AgentType, ctx: DecisionContext) {
    match t
    case ContextSelection =>
      |ctx.abnormalMarkers| > ContextComplexity
      || UnusualCombination(ctx.abnormalMarkers)
      || HasComorbidities(ctx.patientContext)
    case EvidenceWeighting =>
      RareCombination(ctx.marker, ctx.status) || HasConflicts(ctx.supportPatterns, ctx.contradictionPatterns)
    case HypothesisGeneration => true
    case TestRecommendation =>
      HasAmbiguity(Confidences(ctx.hypotheses))
      || forall k :: 0 <= k < |ctx.hypotheses| ==> !Truthy(ctx.hypotheses[k].nextTests)
    case ActionGeneration => true
    case GuardrailExplanation => ctx.guardrailFailed
    case NovelInsight => NoveltyTriggered(ctx)
  }

  /** `should_use_agent`. */
  function ShouldUseAgent(liteMode: bool, modelLoaded: bool, env: Env, agentType: string, ctx: DecisionContext): (use: bool)
    ensures use ==> !liteMode && modelLoaded
    ensures use ==> AgentTypeOf(agentType).Some? && EnvEnabled(env, FlagOf(AgentTypeOf(agentType).value), false)
    ensures use <==> !liteMode && modelLoaded && AgentTypeOf(agentType).Some?
                     && EnvEnabled(env, FlagOf(AgentTypeOf(agentType).value), false)
                     && RuleSaysUse(AgentTypeOf(agentType).value, ctx)
  {
    if liteMode || !modelLoaded then false
    else
      match AgentTypeOf(agentType)
      case None => false
      case Some(t) => EnvEnabled(env, FlagOf(t), false) && RuleSaysUse(t, ctx)
  }

  /** With the flag on, a context-selection case with more than three
      abnormal markers always goes to the model, and a novel-insight request
      with contradictions at least as many as supports does too. */
  lemma ModelForHardCases(env: Env, ctx: DecisionContext)
    requires EnvEnabled(env, "USE_CONTEXT_SELECTION_MODEL", false)
    requires EnvEnabled(env, "USE_NOVEL_INSIGHT_MODEL", false)
    ensures |ctx.abnormalMarkers| > 3 ==> ShouldUseAgent(false, true, env, "context_selection", ctx)
    ensures ctx.contradictionCount > 0 && ctx.contradictionCount >= ctx.supportCount ==>
      ShouldUseAgent(false, true, env, "novel_insight", ctx)
  {
    assert AgentTypeOf("context_selection") == Some(ContextSelection);
    assert AgentTypeOf("novel_insight") == Some(NovelInsight) by {
      assert "novel_insight"[0] != "context_selection"[0];
      assert "novel_insight"[0] != "evidence_weighting"[0];
      assert "novel_insight"[0] != "hypothesis_generation"[0];
      assert "novel_insight"[0] != "test_recommendation"[0];
      assert "novel_insight"[0] != "action_generation"[0];
      assert "novel_insight"[0] != "guardrail_explanation"[0];
    }
  }

  /** The novel-insight rule says "no" exactly when none of its four
      triggers holds. */
  lemma NoveltyQuietWhenConfident(ctx: DecisionContext)
    requires !ctx.forceNovelty && ctx.topConfidence >= 0.55 && ctx.confidenceMargin >= 0.15
    requires ctx.contradictionCount <= 0 || ctx.contradictionCount < ctx.supportCount
    ensures !RuleSaysUse(NovelInsight, ctx)
  {
  }

  // ------------------------------------------------------- token budget

  /** `max(128, min(1024, int(raw)))`, or 384 when the setting is not an integer. */
  function MaxTokens(env: Env): (n: int)
    ensures 128 <= n <= 1024
    ensures ParseInt(Strip(if "MEDGEMMA_MAX_TOKENS" in env then env["MEDGEMMA_MAX_TOKENS"] else "384")).None? ==> n == 384
  {
    var raw := Strip(if "MEDGEMMA_MAX_TOKENS" in env then env["MEDGEMMA_MAX_TOKENS"] else "384");
    match ParseInt(raw)
    case None => 384
    case Some(v) => if v < 128 then 128 else if v > 1024 then 1024 else v
  }

  /** A budget inside the bounds is taken as given; outside, it is clamped. */
  lemma MaxTokensClamps(env: Env, v: nat)
    ensures MaxTokens(env["MEDGEMMA_MAX_TOKENS" := NatToString(v)]) == if v < 128 then 128 else if v > 1024 then 1024 else v
  {
    var raw := NatToString(v);
    NatToStringRoundTrip(v);
    StripDigits(raw);
    ParseIntOfNatToString(v);
    MaxTokensOfSetting(env["MEDGEMMA_MAX_TOKENS" := raw], v);
  }

  /** A setting that parses to `v` gives `v` clamped to the bounds. */
  lemma MaxTokensOfSetting(env: Env, v: int)
    requires "MEDGEMMA_MAX_TOKENS" in env && ParseInt(Strip(env["MEDGEMMA_MAX_TOKENS"])) == Some(v)
    ensures MaxTokens(env) == if v < 128 then 128 else if v > 1024 then 1024 else v
  {
  }

  /** Unset, the budget is 384. */
  lemma MaxTokensDefault(env: Env)
    requires "MEDGEMMA_MAX_TOKENS" !in env
    ensures MaxTokens(env) == 384
  {
    assert NatToString(384) == "384";
    ParseIntOfNatToString(384);
    NatToStringRoundTrip(384);
    StripDigits("384");
  }

  // -------------------------------------------------- result validation

  /** `value or []`: a falsy value becomes the empty list. */
  function OrEmpty(v: Json): Json {
    if Truthy(v) then v else JList([])
  }

  /** The entry is there and is a list. */
  predicate HasList(fields: map<string, Json>, key: string) {
    key in fields && fields[key].JList?
  }

  /** `_validate_agent_result`: None for a result that is not an object;
      for the three list-returning agents, a missing or non-list key replaces
      the whole result by a safe one; novel-insight results are repaired in
      place so that both of their lists exist; anything else passes. */
  method ValidateAgentResult(agentType: string, result: Json) returns (r: Option<Json>)
    ensures !result.JObj? ==> r.None?
    ensures result.JObj? && agentType == "hypothesis_generation" ==>
      r == if HasList(result.fields, "hypotheses") then Some(result)
           else Some(JObj(map["hypotheses" := JList([]),
                              "patient_actions" := OrEmpty(Get(result.fields, "patient_actions")),
                              "red_flags" := OrEmpty(Get(result.fields, "red_flags"))]))
    ensures result.JObj? && agentType == "action_generation" ==>
      r == if HasList(result.fields, "patient_actions") then Some(result)
           else Some(JObj(map["patient_actions" := JList([])]))
    ensures result.JObj? && agentType == "test_recommendation" ==>
      r == if HasList(result.fields, "recommended_tests") then Some(result)
           else Some(JObj(map["recommended_tests" := JList([])]))
    ensures result.JObj? && agentType == "novel_insight" ==>
      && r.Some? && r.value.JObj?
      && HasList(r.value.fields, "novel_insights") && HasList(r.value.fields, "novel_actions")
      && (forall k :: k in result.fields ==> k in r.value.fields)
      && (forall k :: k in r.value.fields && k != "novel_insights" && k != "novel_actions" ==>
            k in result.fields && r.value.fields[k] == result.fields[k])
      && (HasList(result.fields, "novel_insights") ==> r.value.fields["novel_insights"] == result.fields["novel_insights"])
      && (HasList(result.fields, "novel_actions") ==> r.value.fields["novel_actions"] == result.fields["novel_actions"])
      && (!HasList(result.fields, "novel_insights") ==> r.value.fields["novel_insights"] == JList([]))
      && (!HasList(result.fields, "novel_actions") ==> r.value.fields["novel_actions"] == JList([]))
    ensures result.JObj? && agentType !in ["hypothesis_generation", "action_generation", "test_recommendation", "novel_insight"] ==>
      r == Some(result)
  {
    if !result.JObj? {
      return None;
    }
    var fields := result.fields;
    if agentType == "hypothesis_generation" {
      if !HasList(fields, "hypotheses") {
        return Some(JObj(map["hypotheses" := JList([]),
                             "patient_actions" := OrEmpty(Get(fields, "patient_actions")),
                             "red_flags" := OrEmpty(Get(fields, "red_flags"))]));
      }
      return Some(result);
    }
    if agentType == "action_generation" {
      if !HasList(fields, "patient_actions") {
        return Some(JObj(map["patient_actions" := JList([])]));
      }
      return Some(result);
    }
    if agentType == "test_recommendation" {
      if !HasList(fields, "recommended_tests") {
        return Some(JObj(map["recommended_tests" := JList([])]));
      }
      return Some(result);
    }
    if agentType == "novel_insight" {
      if "novel_insights" !in fields {
        fields := fields["novel_insights" := OrEmpty(Get(fields, "novel_insights"))];
      }
      if "novel_actions" !in fields {
        fields := fields["novel_actions" := OrEmpty(Get(fields, "novel_actions"))];
      }
      if !fields["novel_insights"].JList? {
        fields := fields["novel_insights" := JList([])];
      }
      if !fields["novel_actions"].JList? {
        fields := fields["novel_actions" := JList([])];
      }
      return Some(JObj(fields));
    }
    return Some(result);
  }
}
