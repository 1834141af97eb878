# med-EVE reasoning core, modelled in Dafny

med-EVE takes a patient's lab rows and produces a scored hypothesis list that has passed safety checks. Every language-model call in it has a rule-based fallback. This project models the deterministic rule path of `backend/core` and the patch loop of `backend/app.py`. Each model call becomes a boolean gate ("lite mode", "model loaded", an environment flag) or an abstract function parameter.

The pipeline, one Dafny module per source file:

- **LabNormalizer** (`lab_normalizer.dfy`): maps marker synonyms and units, converts values by a fixed table, and classifies each row LOW, NORMAL, HIGH or REFERENCE_UNKNOWN.
- **ContextSelector** (`context_selector.dfy`): picks the abnormal markers and maps them to knowledge-graph node ids. The ids are sorted. It derives the three pattern signals and asks the store for a subgraph.
- **KgStore** (`kg_store.dfy`): the `KGStore` class. Its constructor builds the adjacency index and its methods do level-by-level neighbour expansion. Subgraph selection has three tiers and is cut at `max_nodes`. `explain_edge` looks up an edge by id.
- **DynamicGraph** and **SymptomMapper**: append synthetic marker and symptom nodes. Edges are added only toward patterns that are both active signals and already in the subgraph. Unmappable tokens are reported.
- **EvidenceBuilder**: infers support relations, looks up weights, scores each pattern additively from 0.5 and clamps to [0, 1], then keeps a top-5 list.
- **Reasoner**: the lite reasoner. It returns one hypothesis for the first maximum-scoring pattern, with that pattern's evidence.
- **Guardrails**: GR_001, GR_003, GR_004 and GR_005. Each produces failures and remove patches addressed by JSON path.
- **PatchApply**: the loop in `run_pipeline` that applies the remove patches in place.
- **Critic**: the three-command critic language, the evidence summary and the no-model gate.
- **CaseImpression**: the lite impression text and the gate that chooses it.
- **AgentManager**: the predicates that decide when a model agent is used, the `max_tokens` clamp and the validation of agent results.
- **TextToCase**: the free-text parser's context keywords, symptom tokens and fallback-name normalisation. It also covers lab assembly and deduplication over a given list of regex matches.

These modules share four helper modules:

- **Wrappers**: Option, Result and JSON values.
- **Strings**: the parts of Python's `str` API the code uses.
- **Sorting**: Python's stable `sort` and the lexicographic string order.
- **Graph**: nodes, edges and the default marker node id.

Python's numbers are Dafny `real`s. `round(x, 2)` and `float()` are function parameters. Integers are unbounded, as in Python.

## Model

| member | source | states |
|---|---|---|
| LabNormalizer.NormalizeMarker | backend/core/lab_normalizer.py:47-48 | a synonym in the marker map is replaced by its target; any other name is returned unchanged |
| LabNormalizer.NormalizeMarkerIdempotent | backend/core/lab_normalizer.py:5-10 | normalising a marker name twice gives the same as once |
| LabNormalizer.NormalizeUnit | backend/core/lab_normalizer.py:50-57 | an empty unit keeps the value and takes the marker's standard unit ("" when none); a unit in the marker's conversion table is converted by its factor into the standard unit; any other unit is kept with the value unchanged |
| LabNormalizer.StandardUnitIsIdentityConversion | backend/core/lab_normalizer.py:12-45 | every marker with a conversion table has a standard unit, and that unit converts with factor 1 |
| LabNormalizer.NormalizeUnitIdempotent | backend/core/lab_normalizer.py:50-57 | normalising an already normalised (value, unit) pair changes nothing |
| LabNormalizer.GetStatus | backend/core/lab_normalizer.py:59-65 | LOW exactly below the low bound, HIGH exactly above the high bound (and not below the low one), NORMAL exactly within both bounds inclusive; never REFERENCE_UNKNOWN |
| LabNormalizer.NormalizeLab | backend/core/lab_normalizer.py:69-87 | the row keeps its reference bounds and timestamp; the status is REFERENCE_UNKNOWN exactly when the row comes from the fallback or both bounds are 0, otherwise the status of the converted (unrounded) value; the value is the rounded converted value |
| LabNormalizer.NormalizeLabs | backend/core/lab_normalizer.py:67-89 | one normalised row per input row, in input order |
| ContextSelector.AbnormalMarkers | backend/core/context_selector.py:11 | no more markers than labs |
| ContextSelector.AbnormalMarkersAppend | backend/core/context_selector.py:11 | the markers of two runs of labs are the first run's followed by the second's, so lab order and repeated markers are kept |
| ContextSelector.AbnormalMarkersOfOne | backend/core/context_selector.py:11 | one lab contributes its marker exactly when its status is not NORMAL, and nothing otherwise |
| ContextSelector.AbnormalMarkersMembers | backend/core/context_selector.py:11 | a marker is listed exactly when some lab of that marker has a status other than NORMAL |
| ContextSelector.MappedIds | backend/core/context_selector.py:12 | one node id per marker: the marker map's entry, else `m_` followed by the lower-cased name with blanks as underscores |
| ContextSelector.Signals | backend/core/context_selector.py:15-21 | p_iron_def exactly when an iron-panel marker is abnormal, p_hypothyroid exactly when a thyroid marker is, p_inflam_iron_seq exactly when hsCRP is; nothing else, in that fixed order |
| ContextSelector.BuildCaseCard | backend/core/context_selector.py:9-29 | the card holds the abnormal markers, their node ids as a sorted permutation of the mapped ids, the signals of those markers, and the context and labs as given |
| ContextSelector.SortedIdsNeedNotMatchMarkers | backend/core/context_selector.py:11-12 | because the ids are sorted on their own, the i-th node id need not belong to the i-th abnormal marker (a two-lab example) |
| ContextSelector.SelectContext | backend/core/context_selector.py:9-34 | returns the card above, and the store's subgraph selection for the card's node ids with two hops and at most 60 nodes |
| KgStore.NodeTable | backend/core/kg_store.py:9 | every entry is keyed by its own id, every node's id is a key, and every entry is one of the nodes |
| KgStore.NodeTableLastWins | backend/core/kg_store.py:9 | a node that no later node shares its id with is the table's entry for that id, so the last duplicate wins |
| KgStore.IncidentToMembers | backend/core/kg_store.py:12-15 | an edge is in a node's adjacency entry exactly when it is an edge touching that node |
| KgStore.Register | backend/core/kg_store.py:13-15 | registering one more edge under both endpoints keeps the index equal to the edges touching each id |
| KgStore.BuildIndex | backend/core/kg_store.py:12-15 | the finished index maps every id to the edges touching it, in edge order, once per matching endpoint |
| KgStore.KGStore.constructor | backend/core/kg_store.py:6-15 | the node table, the edge list and an adjacency index that is valid for them |
| KgStore.KGStore.EveryEdgeRegistered | backend/core/kg_store.py:13-15 | every edge is listed under both of its endpoints |
| KgStore.KGStore.StepIsAdjacency | backend/core/kg_store.py:25-27 | `x` is one step from `n` exactly when some edge joins them in either direction |
| KgStore.AddOthers | backend/core/kg_store.py:25-27 | the inner loop adds exactly the far endpoints of the node's edges |
| KgStore.StepsOfIsExpand | backend/core/kg_store.py:22-27 | whatever order the frontier is visited in, the next level is the one-step expansion of the frontier |
| KgStore.VisitFrontier | backend/core/kg_store.py:21-28 | one round marks the frontier visited and yields the one-step expansion of its unvisited members |
| KgStore.RoundKeepsBall | backend/core/kg_store.py:20-28 | after each round the visited set plus the frontier is the ball of that radius |
| KgStore.KGStore.GetNeighbors | backend/core/kg_store.py:17-29 | the ids within `hops - 1` steps of the node, without the node; nothing when `hops` is 0 or 1 |
| KgStore.ListOfSet | backend/core/kg_store.py:34 | the list enumerates the set, each element once |
| KgStore.AddEnds | backend/core/kg_store.py:36-39 | adds both endpoints of each edge |
| KgStore.KGStore.MarkerSet | backend/core/kg_store.py:33 | an id is an anchor exactly when it is requested and names a known node |
| KgStore.KGStore.SubgraphFromMarkers | backend/core/kg_store.py:31-50 | the anchors in some order, then their edge endpoints ascending, then the rest of the neighbourhood ascending, cut at `max_nodes`; the nodes are the known selected ones (at most `max_nodes`, each the store's node for its id), the edges those store edges between selected ids |
| KgStore.KGStore.SelectionBounded | backend/core/kg_store.py:40-47 | at most `max_nodes` ids are selected and none twice |
| KgStore.KGStore.AnchorsSurvive | backend/core/kg_store.py:46-47 | when the anchors fit, they all survive the cut and come first |
| KgStore.KGStore.SelectedNodesAreKnown | backend/core/kg_store.py:48 | anchors are requested, known ids; every returned node is the store's node for a selected id |
| KgStore.KGStore.SelectedEdgesExact | backend/core/kg_store.py:49 | an edge is returned exactly when it is a store edge whose two endpoints were selected |
| KgStore.KGStore.TwoHopsHaveNoRemainder | backend/core/kg_store.py:41-45 | with two hops the neighbours are already edge endpoints, so the third tier is empty |
| KgStore.KGStore.ExplainEdge | backend/core/kg_store.py:52-56 | the first edge with that id, or nothing exactly when no edge has it |
| KgStore.Ball | backend/core/kg_store.py:17-29 | the ids within `k` steps of the node; GetNeighbors returns the ball of radius `hops - 1` without the node |
| Guardrails.ScreenActions | backend/core/guardrails.py:18-36 | one per-action loop: its failures and patches are those of the rule's findings, action by action |
| Guardrails.ScreenEvidence | backend/core/guardrails.py:42-46 | one hypothesis's evidence loop yields exactly its GR_005 findings |
| Guardrails.ScreenHypotheses | backend/core/guardrails.py:39-46 | the GR_005 loop yields the findings of every hypothesis, in order |
| Guardrails.CheckGuardrails | backend/core/guardrails.py:11-53 | the failures and patches of GR_001, GR_003, GR_004 and GR_005, in that order; FAIL exactly when some rule fired, PASS exactly when no patch was emitted |
| Guardrails.ActionFindingsShape | backend/core/guardrails.py:18-36 | a per-action rule reports one finding per action it fires on and no other, in ascending action order, each removing that action |
| Guardrails.FindingsRuleOrder | backend/core/guardrails.py:15-46 | every GR_001 failure precedes every GR_003 failure, then GR_004, then GR_005 |
| Guardrails.EvidenceFindingsMembers | backend/core/guardrails.py:43-46 | an evidence item is reported exactly when its marker is not an input marker |
| Guardrails.Gr005Members | backend/core/guardrails.py:39-46 | GR_005 reports exactly the evidence items, over all hypotheses, whose marker is missing from the input |
| Guardrails.DoublyFlaggedActionPatchedTwice | backend/core/guardrails.py:25-36 | an action that mentions a dose and names no bucket gets two identical removal patches, one from GR_003 and a later one from GR_004 |
| Guardrails.DoseTaskPatchedTwice | backend/core/guardrails.py:25-36 | a lone action whose task is "dose" yields the patch list [remove /patient_actions/0, remove /patient_actions/0] |
| Guardrails.ShortTaskNamesNoBucket | backend/core/guardrails.py:32-34 | a task of at most four characters names no allowed bucket |
| Guardrails.SingularTestNamesNoBucket | backend/core/guardrails.py:32-36 | a task reading just "Test" fails GR_004, since "test" is not the bucket "tests" |
| Guardrails.Gr001 | backend/core/guardrails.py:15-21 | fires on an action whose lower-cased task contains "iron" and "supplement" exactly when the inflammation pattern is signalled (ActionFindingsShape gives its findings) |
| Guardrails.Gr003 | backend/core/guardrails.py:25-29 | fires on an action whose lower-cased task contains "mg", "dose" or "supplement" |
| Guardrails.Gr004 | backend/core/guardrails.py:31-36 | fires on an action whose lower-cased task contains none of the four bucket strings verbatim |
| Guardrails.Gr005 | backend/core/guardrails.py:38-46 | the evidence findings of each hypothesis in turn, with patch path `/hypotheses/h/evidence/e` (Gr005Members states which items) |
| Sorting.SortBy | backend/core/evidence_builder.py:202 | `list.sort(key=...)` yields a permutation of its input: same multiset, same length |
| Sorting.SortByIsSorted | backend/core/evidence_builder.py:202 | under a total preorder, every element of the sorted list is ordered before the ones after it |
| Sorting.SortByIsStable | backend/core/evidence_builder.py:202 | Python's sort is stable: elements that compare equal keep their input order |
| Sorting.LexLeAntisymmetric | backend/core/context_selector.py:12 | two strings each ordered at or before the other are equal |
| Sorting.LexLeIsTotalPreorder | backend/core/context_selector.py:12 | the string order `sorted()` uses is total and transitive |
| Sorting.SortStrings | backend/core/context_selector.py:12 | `sorted()` on strings is a permutation of its input |
| Sorting.SortStringsCorrect | backend/core/context_selector.py:12 | `sorted()` on strings is in ascending order and a permutation of its input |
| Sorting.SortSet | backend/core/kg_store.py:40 | `sorted(set)` lists each member of the set exactly once, in strictly ascending order |
| Graph.NodeIds | backend/core/dynamic_graph.py:38 | the id set holds exactly the ids of the listed nodes |
| Graph.DefaultNodeId | backend/core/context_selector.py:12 | the fallback node id for a marker is `m_` followed by the marker character by character, lower-cased, with each blank made `_` |
| Graph.DefaultNodeIdExamples | backend/core/dynamic_graph.py:47-51 | "ANC" gets the id "m_anc" and "Vitamin D" gets "m_vitamin_d" |
| Strings.SplitGivesWords | backend/core/critic_medgemma.py:42 | every piece `str.split()` yields is a non-empty run of non-blank characters |
| Strings.SplitWordThenSpace | backend/core/critic_medgemma.py:42 | splitting a word, a blank and a rest gives the word followed by the rest's pieces |
| Strings.SplitLinesCons | backend/core/critic_medgemma.py:38 | `splitlines()` of a break-free line, a newline and a rest gives the line followed by the rest's lines |
| Strings.StripLeft | backend/core/critic_medgemma.py:39 | the leading-blank strip is a suffix of the input that does not start with a blank |
| Strings.StripRight | backend/core/critic_medgemma.py:39 | the trailing-blank strip is a prefix of the input that does not end with a blank |
| Strings.StripLeftDropsBlanks | backend/core/critic_medgemma.py:39 | every character the leading-blank strip removes is a blank |
| Strings.StripRightDropsBlanks | backend/core/critic_medgemma.py:39 | every character the trailing-blank strip removes is a blank |
| Strings.StripDropsBlanks | backend/core/critic_medgemma.py:39 | `str.strip()` is a slice of the input with only blanks before and after it |
| Strings.UpperChars | backend/core/critic_medgemma.py:45 | each character of `str.upper()` is the upper-case form of the input's character at that position |
| Strings.UpperIdempotent | backend/core/critic_medgemma.py:45 | upper-casing twice is the same as upper-casing once |
| Strings.ParseIntOfIntToString | backend/core/critic_medgemma.py:57 | `int(str(i)) == i` for every integer, and `str(i)` is a single word |
| Strings.NatToStringRoundTrip | backend/core/critic_medgemma.py:57 | `str(n)` is a digit string whose value is `n` |
| Strings.ContainsIff | backend/core/guardrails.py:27 | `sub in s` holds exactly when `sub` occurs at some position of `s` |
| Strings.SplitOnCons | backend/app.py:113 | splitting a separator-free piece, the separator and a rest gives the piece followed by the rest's pieces |
| Strings.NatToStringInjective | backend/core/guardrails.py:29 | distinct numbers render as distinct decimal strings, so distinct action indices give distinct patch paths |
| Strings.Strip | backend/core/critic_medgemma.py:39 | `str.strip()`: the input without leading and trailing blanks, removing blanks only (StripDropsBlanks) |
| Strings.Split | backend/core/critic_medgemma.py:42 | `str.split()`: the maximal runs of non-blanks, in order (SplitGivesWords, SplitWordThenSpace) |
| Strings.SplitLines | backend/core/critic_medgemma.py:38 | `str.splitlines()`: the lines between breaks (SplitLinesCons) |
| Strings.Lower | backend/core/guardrails.py:19 | `str.lower()`: same length, each ASCII capital made small, every other character kept |
| Strings.Upper | backend/core/critic_medgemma.py:45 | `str.upper()` on ASCII letters: same length, each character upper-cased (UpperChars), and upper-casing again changes nothing (UpperIdempotent) |
| Strings.ReplaceChar | backend/core/context_selector.py:12 | `str.replace(a, b)` for one character: same length, each `a` made `b`, every other character kept |
| Strings.ParseInt | backend/core/critic_medgemma.py:57 | `int()` on stripped text: an optional sign and ASCII digits, else nothing (ParseIntOfIntToString) |
| DynamicGraph.DynamicIds | backend/core/dynamic_graph.py:52 | an id is dynamic exactly when the card lists it among the abnormal-marker node ids and the subgraph has no node with it |
| DynamicGraph.NoneMissing | backend/core/dynamic_graph.py:52-54 | when every card id is already a node id there are no dynamic ids, so the subgraph is returned unchanged |
| DynamicGraph.MarkerLabels | backend/core/dynamic_graph.py:47-51 | every abnormal marker's default node id is a key, and each key maps to a marker whose default id it is (the later marker when two share an id) |
| DynamicGraph.LabelForMarkers | backend/core/dynamic_graph.py:66 | a dynamic node is labelled with an abnormal marker whose default id it is when one exists, and with its own id otherwise |
| DynamicGraph.NewNodes | backend/core/dynamic_graph.py:65-76 | one synthetic node per dynamic id, in order, each the dynamic Marker node for that id and its label |
| DynamicGraph.DynEdgeIdsDiffer | backend/core/dynamic_graph.py:59-63 | two edge ids built with different counter values differ, whatever the marker and pattern ids (even after the "m_" and "p_" removal) |
| DynamicGraph.RuleEdges | backend/core/dynamic_graph.py:80-103 | the edges of one dynamic node: at most one per rule, each from that node to a non-empty pattern that is signalled and already present, numbered consecutively after the counter, carrying an accepting rule's relation (SUPPORTS when empty) and rationale |
| DynamicGraph.DynEdges | backend/core/dynamic_graph.py:65-103 | across all dynamic nodes, every edge leaves a dynamic node for a signalled pattern among the subgraph's and the dynamic ids, and edge k carries counter value k+1 |
| DynamicGraph.DescribeAll | backend/core/dynamic_graph.py:98-103 | the suggested edges are the appended edges, one for one and in order, without their ids |
| DynamicGraph.DynEdgeIdsDistinct | backend/core/dynamic_graph.py:59-63 | the edge ids created in one call are pairwise distinct |
| DynamicGraph.AddRuleEdges | backend/core/dynamic_graph.py:80-103 | the rule loop appends exactly RuleEdges to the edges and their descriptions to the suggestions, and advances the counter by their number |
| DynamicGraph.AddDynamicNode | backend/core/dynamic_graph.py:65-103 | one iteration appends the node to both node lists, adds its id to the present ids, and then appends the edges its rules yield against the enlarged id set |
| DynamicGraph.ExtendStep | backend/core/dynamic_graph.py:65-103 | after handling the i-th dynamic id, the node and edge lists equal the subgraph's plus the additions for the first i+1 dynamic ids |
| DynamicGraph.ExtendAll | backend/core/dynamic_graph.py:65-103 | the whole loop appends NewNodes to the nodes and DynEdges to the edges, and suggests exactly those nodes and the edges' descriptions |
| DynamicGraph.ExtendSubgraph | backend/core/dynamic_graph.py:29-107 | the extended subgraph is the original plus the dynamic nodes and edges, the suggested additions describe exactly those, and with no dynamic id the subgraph and empty additions come back unchanged |
| DynamicGraph.SecondExtensionAddsNothing | backend/core/dynamic_graph.py:52-54 | extending an already extended subgraph with the same card finds no dynamic ids |
| DynamicGraph.ExtendedNodesAreDynamicMarkers | backend/core/dynamic_graph.py:67-74 | every appended node is a dynamic Marker node whose id the card lists and the original subgraph lacked |
| SymptomMapper.SafeId | backend/core/symptom_mapper.py:42 | same length as the input; every character outside letters, digits, "_" and "-" becomes "_", the rest are kept |
| SymptomMapper.SymptomNodeId | backend/core/symptom_mapper.py:40-43 | the id starts with "s_"; a blank token gives "s_unknown"; otherwise character `2 + i` is the lower-cased `i`-th character of the stripped token when that is a letter, digit, "_" or "-", and "_" when not |
| SymptomMapper.PlainPhraseStripped | backend/core/symptom_mapper.py:42 | a phrase of letters and blanks that starts and ends with a letter is unchanged by `strip()` |
| SymptomMapper.PlainPhraseNodeId | backend/core/symptom_mapper.py:40-43 | a phrase of letters and blanks gets "s_" and the phrase lower-cased with blanks made "_" |
| SymptomMapper.SymptomNodeIdOfSmallWord | backend/core/symptom_mapper.py:40-43 | a word of small letters gets the id "s_" followed by the word itself ("fatigue" gives "s_fatigue") |
| SymptomMapper.FirstDict | backend/core/symptom_mapper.py:53-54 | a first rule exists exactly when the entry is a dict, or a non-empty list whose first element is a dict |
| SymptomMapper.SuggestionOf | backend/core/symptom_mapper.py:55-59 | the rule's pattern id and rationale; its relation when non-empty, else SUPPORTS |
| SymptomMapper.RuleSuggestion | backend/core/symptom_mapper.py:46-60 | a suggestion exists exactly when a truthy entry is picked (the stripped lower-cased token first, then the raw token) and its first rule is a dict; it is then that rule read as a suggestion, with a non-empty relation |
| SymptomMapper.NoEntryNoSuggestion | backend/core/symptom_mapper.py:50-53 | a token with no truthy entry under either spelling has no suggestion |
| SymptomMapper.DictEntryIsTheRule | backend/core/symptom_mapper.py:50-59 | an entry that is one non-empty dict rather than a list is used as the rule |
| SymptomMapper.NonDictFirstRuleGivesNone | backend/core/symptom_mapper.py:53-60 | a list entry whose first element is not a dict gives no suggestion, even when a later element is one |
| SymptomMapper.RuleChoice | backend/core/symptom_mapper.py:139-147 | without the model the action is "keep" exactly when there is a suggestion whose pattern is signalled, and then it carries that pattern and relation; otherwise "do_not_map" |
| SymptomMapper.ModelChoice | backend/core/symptom_mapper.py:89-103 | the model's reply yields keep or change only when it is a JSON object with that action (case-insensitive) and a non-empty pattern id, taken from the reply; anything else is do_not_map; the relation is never empty |
| SymptomMapper.SymEdgeIdsDiffer | backend/core/symptom_mapper.py:126-128 | edge ids with different counter values differ, whatever the node and pattern ids |
| SymptomMapper.MappedStep | backend/core/symptom_mapper.py:130-177 | the state after the first i+1 tokens is the state after the first i tokens advanced by token i |
| SymptomMapper.MapToken | backend/core/symptom_mapper.py:130-177 | one loop iteration yields exactly the specified step for that token |
| SymptomMapper.MapSymptomsToGraph | backend/core/symptom_mapper.py:106-179 | the nodes, edges and unmappable tokens returned are those of the specified token-by-token mapping from the subgraph's node ids, with the model used only outside lite mode, with a loaded model and the setting on |
| SymptomMapper.PlaceKeepsWellFormed | backend/core/symptom_mapper.py:155-175 | placing a token with a new id and a carried choice keeps the mapping well formed |
| SymptomMapper.StepKeepsWellFormed | backend/core/symptom_mapper.py:130-177 | every token step keeps the mapping well formed |
| SymptomMapper.MappedWellFormed | backend/core/symptom_mapper.py:106-179 | after any tokens: one edge per added node, from that node, to a signalled pattern present at the time, numbered in order; added node ids are new, distinct and dynamic Symptom nodes |
| SymptomMapper.MappedEdgeIdsDistinct | backend/core/symptom_mapper.py:126-128 | the edge ids created in one call are pairwise distinct |
| SymptomMapper.SkippedTokenChangesNothing | backend/core/symptom_mapper.py:131-136 | an empty token, or one whose node id is already present, changes nothing |
| SymptomMapper.StepOneOutcome | backend/core/symptom_mapper.py:155-177 | any other token has exactly one effect, appended in order: its node plus one edge, or its stripped text in the unmappable list |
| SymptomMapper.RulePathPlacesIff | backend/core/symptom_mapper.py:139-155 | without the model, a new token is placed exactly when its rule's pattern is non-empty, signalled and already present |
| SymptomMapper.NoTokensNoOutcome | backend/core/symptom_mapper.py:118-124 | no tokens give no nodes, no edges and nothing unmappable |
| SymptomMapper.Step | backend/core/symptom_mapper.py:130-177 | one token of the loop: skipped, placed or reported unmappable (SkippedTokenChangesNothing, StepOneOutcome) |
| SymptomMapper.Place | backend/core/symptom_mapper.py:155-175 | appends the Symptom node and its numbered edge to the chosen pattern, and marks the id present (PlaceKeepsWellFormed) |
| SymptomMapper.SymptomLabel | backend/core/symptom_mapper.py:156-158 | the token with "_" read as blanks and stripped, or the token itself when nothing is left |
| EvidenceBuilder.InferSupportRelation | backend/core/evidence_builder.py:42-50 | INCREASES supports a HIGH lab and contradicts a LOW one, DECREASES the reverse, and the result is non-empty exactly for those two relations with a HIGH or LOW status |
| EvidenceBuilder.CoerceWeight | backend/core/evidence_builder.py:33-40 | a number is kept, a boolean becomes 1 or 0, a string goes through `float()` with the default on failure, and anything else gives the default |
| EvidenceBuilder.WeightsEntry | backend/core/evidence_builder.py:24-31 | the weight table has exactly the entries hsCRP, Ferritin, Iron, TSAT, Hb and RDW, with the listed weights |
| EvidenceBuilder.WeightsShaped | backend/core/evidence_builder.py:24-31 | every entry of the weight table is an object whose leaves are SUPPORTS/CONTRADICTS weights in [0, 0.8] |
| EvidenceBuilder.TableWeightFacts | backend/core/evidence_builder.py:109-119 | the rule lookup in a table of that shape gives a weight in [0, 0.8], and the default 0.1 for any relation other than SUPPORTS and CONTRADICTS |
| EvidenceBuilder.CausalRelationsWeighDefault | backend/core/evidence_builder.py:109-119 | INCREASES, DECREASES and any other relation without a table entry weighs 0.1, since the lookup is by the edge's own relation |
| EvidenceBuilder.RuleWeightBounds | backend/core/evidence_builder.py:109-119 | every rule weight lies between 0 and 0.8 |
| EvidenceBuilder.FerritinWeights | backend/core/evidence_builder.py:109-115 | Ferritin is looked up by status first: LOW gives 0.6 for SUPPORTS and 0.7 for CONTRADICTS, and NORMAL, which has no entry, falls to the relation lookup and gets 0.1 |
| EvidenceBuilder.HsCrpWeights | backend/core/evidence_builder.py:116-118 | hsCRP is keyed directly by relation whatever the status: 0.8 for SUPPORTS, 0.0 for CONTRADICTS |
| EvidenceBuilder.IronWeights | backend/core/evidence_builder.py:109-118 | Iron weighs 0.5 for a LOW SUPPORTS edge, and a HIGH value, having no entry, gets the default 0.1 |
| EvidenceBuilder.FirstLabel | backend/core/evidence_builder.py:18-20 | the label found belongs to the first subgraph node with that id (no earlier node has it), and nothing is found exactly when no node has it |
| EvidenceBuilder.PatternLabel | backend/core/evidence_builder.py:14-21 | a pattern in the graph's node table is labelled with its label (its id when empty); otherwise any other result is the non-empty label of the first subgraph node with that id |
| EvidenceBuilder.PatternOf | backend/core/evidence_builder.py:145-151 | the chosen pattern is a signalled end of the edge, and the `from` end wins when it is signalled |
| EvidenceBuilder.ItemsForMarkerQualify | backend/core/evidence_builder.py:142-171 | every item of a marker comes from an edge touching the marker's node with a signalled pattern, and carries the marker, its status and that pattern |
| EvidenceBuilder.StatusTable | backend/core/evidence_builder.py:125 | every lab's marker is a key, each entry is the status of some lab with that marker, and the last lab with a marker sets it (StatusTableLastWins) |
| EvidenceBuilder.StatusTableLastWins | backend/core/evidence_builder.py:125 | a lab whose marker no later lab repeats sets that marker's status |
| EvidenceBuilder.Zip | backend/core/evidence_builder.py:140 | the pairs are the markers and node ids by position, as many as the shorter list |
| EvidenceBuilder.NetIsSupportsMinusContradictions | backend/core/evidence_builder.py:176-187 | the score change of a pattern is the weight of its supporting items minus that of its contradicting ones |
| EvidenceBuilder.Clamp | backend/core/evidence_builder.py:196 | the result lies in [0, 1] and equals the input when the input already does |
| EvidenceBuilder.Dedup | backend/core/evidence_builder.py:133-134 | the score keys are exactly the signals, each once |
| EvidenceBuilder.AddTo | backend/core/evidence_builder.py:184 | adding to one key keeps the keys and changes that key's score by the amount and no other |
| EvidenceBuilder.InitScores | backend/core/evidence_builder.py:133-134 | the scores start with the distinct signals as keys, in first-occurrence order, each at 0.5 |
| EvidenceBuilder.ClampScores | backend/core/evidence_builder.py:195-196 | clamping keeps the keys and clamps every score |
| EvidenceBuilder.HeavierFirstIsTotalPreorder | backend/core/evidence_builder.py:202 | ordering by weight, heaviest first, is a total preorder, so the sort is well defined |
| EvidenceBuilder.TopFiveProperties | backend/core/evidence_builder.py:198-203 | at most five items (all when fewer), drawn from the items, in non-increasing weight, none lighter than an item left out, with the sort stable for equal weights |
| EvidenceBuilder.HeaviestPrefix | backend/core/evidence_builder.py:202-203 | a prefix of a list sorted heaviest first is drawn from it, is itself in non-increasing weight, and outweighs every item after it |
| EvidenceBuilder.ScanStep | backend/core/evidence_builder.py:176-192 | one item joins the supports or the contradictions by its scoring relation, moves its pattern's score by its weight, and is always appended to the discriminators |
| EvidenceBuilder.ScanMarker | backend/core/evidence_builder.py:142-192 | scanning a marker's edges extends the running supports, contradictions, scores and discriminators by exactly that marker's items |
| EvidenceBuilder.BuildEvidence | backend/core/evidence_builder.py:121-220 | a KeyError exactly when a zipped abnormal marker has no lab; otherwise the bundle holds the supports and contradictions of all items, every signal's score 0.5 plus its net change clamped to [0, 1], the five heaviest items and the fixed allowed claims |
| EvidenceBuilder.CardMarkersAreKnown | backend/core/evidence_builder.py:125-141 | on a case card built from the same labs every zipped marker has a status, so the KeyError path is unreachable in the pipeline |
| EvidenceBuilder.RuleWeight | backend/core/evidence_builder.py:108-119 | the rule weight of a marker, status and raw relation in the fixed table, 0.1 by default (TableWeightFacts, RuleWeightBounds) |
| EvidenceBuilder.WeightFor | backend/core/evidence_builder.py:182-187 | the summed weight of the items recorded for a pattern (NetIsSupportsMinusContradictions) |
| EvidenceBuilder.ItemsForMarker | backend/core/evidence_builder.py:142-192 | one item per qualifying edge of the marker's node, in edge order (ItemsForMarkerQualify) |
| EvidenceBuilder.TopFive | backend/core/evidence_builder.py:198-203 | the first five of the stable heaviest-first sort (TopFiveProperties, HeaviestPrefix) |
| Reasoner.FirstMax | backend/core/reasoner_medgemma.py:20-21 | the position of a largest score, and no earlier entry (in insertion order) has that score, as `max(scores, key=scores.get)` picks |
| Reasoner.HypothesisNameIdentifiesPattern | backend/core/reasoner_medgemma.py:3-7 | the name is "Unknown condition (possible)" exactly for a pattern outside the condition table, and a specific name identifies its pattern |
| Reasoner.MatchingAppend | backend/core/reasoner_medgemma.py:25-41 | the references collected from two lists one after the other are those of each list, in order |
| Reasoner.MatchingMembers | backend/core/reasoner_medgemma.py:25-41 | a reference is collected exactly when some item for the pattern carries its marker, status and edge |
| Reasoner.CollectFor | backend/core/reasoner_medgemma.py:25-32 | the collection loop yields exactly the references of the items for the pattern, in order |
| Reasoner.Reason | backend/core/reasoner_medgemma.py:9-77 | outside lite mode the "Model not loaded" error; with no scores empty lists; otherwise one hypothesis H1 for the first top-scored pattern, with its score, its discriminators as evidence and its contradictions as counter-evidence, and the sTfR test and action only for the inflammation pattern |
| Reasoner.RefsJson | backend/core/reasoner_medgemma.py:28-41 | one JSON object per evidence reference |
| Reasoner.ActionsJson | backend/core/reasoner_medgemma.py:59-66 | one JSON object per patient action |
| Reasoner.HypothesisName | backend/core/reasoner_medgemma.py:3-7 | the mapped condition followed by " (possible)", "Unknown condition" for an unmapped pattern (HypothesisNameIdentifiesPattern) |
| Reasoner.Matching | backend/core/reasoner_medgemma.py:24-41 | the references of the items for one pattern, in item order (MatchingAppend, MatchingMembers) |
| Critic.ParseLines | backend/core/critic_medgemma.py:38-60 | the loop over the lines collects exactly the ops the lines yield, in line order |
| Critic.ParseCriticLines | backend/core/critic_medgemma.py:27-61 | the ops of the text are those of its lines, and empty text gives none |
| Critic.OpsAppend | backend/core/critic_medgemma.py:38-60 | ops follow line order: the ops of two blocks of lines are those of the first block followed by those of the second |
| Critic.AtMostOneOpPerLine | backend/core/critic_medgemma.py:38-60 | there are never more ops than lines |
| Critic.ParsedIdsAreUpperCase | backend/core/critic_medgemma.py:39-53 | a blank or one-token line yields nothing, and hypothesis ids come out upper-case |
| Critic.RemoveHypothesisParts | backend/core/critic_medgemma.py:45-47 | a line whose first token is REMOVE_HYPOTHESIS in any case yields the removal of the upper-cased second token |
| Critic.LowerConfidenceParts | backend/core/critic_medgemma.py:48-53 | LOWER_CONFIDENCE in any case, with a third token that parses as a number, yields the lowering of the upper-cased id to that number |
| Critic.RemoveActionParts | backend/core/critic_medgemma.py:54-60 | REMOVE_ACTION in any case, with a third token that parses as an integer, yields the removal at that scope and index |
| Critic.ParseRemoveHypothesis | backend/core/critic_medgemma.py:31 | the line "REMOVE_HYPOTHESIS <id>" parses back to the removal of that id |
| Critic.ParseLowerConfidence | backend/core/critic_medgemma.py:32 | the line "LOWER_CONFIDENCE <id> <number>" parses back to the lowering of that id to that number |
| Critic.ParseRemoveAction | backend/core/critic_medgemma.py:33 | the line "REMOVE_ACTION <scope> <index>" parses back to the removal at that scope and index |
| Critic.RenderIsOneLine | backend/core/critic_medgemma.py:93-96 | the command line printed for an op is non-empty and holds no line break |
| Critic.ParseRender | backend/core/critic_medgemma.py:27-61 | parsing the line printed for an op gives back that op |
| Critic.RenderedLine | backend/core/critic_medgemma.py:38-60 | a printed op is one non-empty line that yields exactly that op |
| Critic.ParseRenderAll | backend/core/critic_medgemma.py:27-61 | the command language round-trips: printing ops one per line and parsing the text gives back exactly those ops, in order |
| Critic.Descriptions | backend/core/critic_medgemma.py:21-24 | one `marker(status)->pattern` description per evidence item |
| Critic.SummarizeEvidence | backend/core/critic_medgemma.py:17-24 | the summary is "None" exactly when there are no top discriminators |
| Critic.OnlySixItemsShown | backend/core/critic_medgemma.py:18 | items after the sixth never change the summary |
| Critic.RunCritic | backend/core/critic_medgemma.py:64-132 | without a usable model no ops, no output and the model unused; otherwise the model is used, the raw output is its stripped reply (empty when the call failed) and the ops are the ones parsed from it |
| Critic.ParseLine | backend/core/critic_medgemma.py:38-60 | the op of one stripped, split line, or none (RemoveHypothesisParts, LowerConfidenceParts, RemoveActionParts) |
| Critic.Render | backend/core/critic_medgemma.py:28-34 | the line format the parser reads for each op; parsing it gives the op back (ParseRender) |
| CaseImpression.JoinEnds | backend/core/case_impression.py:26 | joining sentences keeps the first at the front and the last at the end |
| CaseImpression.LiteImpression | backend/core/case_impression.py:11-26 | the lite impression is never empty |
| CaseImpression.ImpressionOpensWithTopHypothesis | backend/core/case_impression.py:15-18 | with a hypothesis, the impression opens on "Top consideration: <name>." (name "Unknown" when missing) |
| CaseImpression.ImpressionClosesWithSafetyNote | backend/core/case_impression.py:22-23 | a FAIL guardrail report always ends the impression on the safety note |
| CaseImpression.ImpressionOrder | backend/core/case_impression.py:13-26 | with nothing to say the fixed remark is given; otherwise the sentences come as hypothesis, markers, safety note, separated by single blanks |
| CaseImpression.GenerateImpression | backend/core/case_impression.py:29-94 | lite mode, an unloaded model, the setting off or a missing prompt file give the lite impression; otherwise the model's stripped text is used exactly when it is longer than ten characters, and the lite impression otherwise; never empty |
| AgentManager.EnvEnabledIgnoresBlanks | backend/core/agent_manager.py:23-28 | a feature flag reads the same with a blank added before or after its setting |
| AgentManager.EnvEnabledIgnoresCase | backend/core/agent_manager.py:23-28 | a feature flag reads the same whatever the case of its setting, so "OFF" switches it off like "off" |
| AgentManager.EnvEnabledByWord | backend/core/agent_manager.py:23-28 | a set variable whose stripped, lower-cased setting is none of "0", "false", "no", "off" and "" switches the flag on, whatever its default |
| AgentManager.EnvEnabledOnWords | backend/core/agent_manager.py:23-28 | "1" and "yes" switch a flag on, whatever its default |
| AgentManager.OnWord | backend/core/agent_manager.py:23-28 | a word of small letters and digits that is not an off word switches a flag on, whatever its default |
| AgentManager.EnvEnabledOffWords | backend/core/agent_manager.py:23-28 | "off" and an empty setting switch a flag off, whatever its default |
| AgentManager.NoPanelCovers | backend/core/agent_manager.py:179-184 | the scan over the common panels finds none exactly when no panel contains the markers and none is contained in them |
| AgentManager.UsualCombinations | backend/core/agent_manager.py:170-184 | no markers, markers all drawn from one common panel, or markers holding a whole panel are not an unusual combination |
| AgentManager.LoneOutsiderIsUnusual | backend/core/agent_manager.py:170-184 | a single marker outside every common panel is an unusual combination |
| AgentManager.RareCombination | backend/core/agent_manager.py:200-214 | a missing marker or status is always rare, and a common pair always has status HIGH or LOW |
| AgentManager.HasConflicts | backend/core/agent_manager.py:216-227 | there is a conflict exactly when some pattern id (a missing one included) occurs among both the supports and the contradictions |
| AgentManager.SortedDescending | backend/core/agent_manager.py:234 | sorting the confidences in reverse keeps the same values and puts them in non-increasing order |
| AgentManager.TopTwoOfSorted | backend/core/agent_manager.py:234-238 | after the sort, the first two confidences are the best one and the best of the others |
| AgentManager.AmbiguityIsTopTwoGap | backend/core/agent_manager.py:229-239 | hypotheses are ambiguous exactly when the best confidence exceeds the best of the others by less than 0.15 |
| AgentManager.Confidences | backend/core/agent_manager.py:234 | one confidence per hypothesis |
| AgentManager.ShouldUseAgent | backend/core/agent_manager.py:74-168 | the model is used exactly when not in lite mode, the model is loaded, the agent type is known, its flag (default off) is on, and the type's own rule says so |
| AgentManager.ModelForHardCases | backend/core/agent_manager.py:81-166 | with their flags on, a context selection with more than three abnormal markers, and a novel-insight request with contradictions present and at least as many as supports, always go to the model |
| AgentManager.NoveltyQuietWhenConfident | backend/core/agent_manager.py:150-166 | without force, with confidence at least 0.55, margin at least 0.15 and contradictions absent or outnumbered, the novel-insight rule says no |
| AgentManager.MaxTokens | backend/core/agent_manager.py:315-319 | the token budget always lies in [128, 1024], and is 384 when the setting is not an integer |
| AgentManager.MaxTokensClamps | backend/core/agent_manager.py:315-319 | a numeric setting inside the bounds is taken as given, and outside them is clamped to 128 or 1024 |
| AgentManager.MaxTokensOfSetting | backend/core/agent_manager.py:315-319 | a setting that parses as the integer v gives v clamped to [128, 1024] |
| AgentManager.MaxTokensDefault | backend/core/agent_manager.py:315 | with the variable unset the budget is 384 |
| AgentManager.ValidateAgentResult | backend/core/agent_manager.py:414-443 | a non-object gives None; for hypothesis, action and test agents a missing or non-list key replaces the result by the safe one; a novel-insight result keeps its other keys and ends with both lists present (kept when they are lists, empty otherwise); other agent types pass unchanged |
| AgentManager.EnvEnabled | backend/core/agent_manager.py:23-28 | the default when the variable is unset; otherwise off exactly for "0", "false", "no", "off" or "" after strip and lower-casing (the EnvEnabled lemmas state each case) |
| AgentManager.UnusualCombination | backend/core/agent_manager.py:170-184 | unusual exactly when no common panel contains the marker set or is contained in it (NoPanelCovers, UsualCombinations) |
| AgentManager.HasComorbidities | backend/core/agent_manager.py:186-198 | true for a truthy comorbidities entry or a numeric age above 65, false otherwise (HasComorbiditiesCases) |
| AgentManager.HasComorbiditiesCases | backend/core/agent_manager.py:186-198 | with a numeric age and a comorbidity list: true exactly when the list is non-empty or the age is above 65 |
| AgentManager.AgeThreshold | backend/core/agent_manager.py:194-195 | age 66 counts; age 65 with an empty list does not; an empty context does not |
| AgentManager.HasAmbiguity | backend/core/agent_manager.py:229-239 | false for fewer than two hypotheses; otherwise the gap between the two highest confidences is below 0.15 (AmbiguityIsTopTwoGap) |
| AgentManager.RuleSaysUse | backend/core/agent_manager.py:81-166 | the per-type rule once its flag is on: complexity, unusual markers or comorbidities; a rare pair or conflicts; always; ambiguity or no next tests; always; a failed guardrail; the novelty triggers |
| TextToCase.MarkerOrderLongestFirst | backend/core/text_to_case.py:137 | the known marker names are tried longest first |
| TextToCase.MarkerOrderRearrangesNames | backend/core/text_to_case.py:12-18 | the order tried is a one-to-one rearrangement of `MARKER_NAMES` |
| TextToCase.MarkerOrderIsStable | backend/core/text_to_case.py:137 | names of equal length keep their `MARKER_NAMES` order, as the stable sort keeps them |
| TextToCase.MarkerOrderHasRefs | backend/core/text_to_case.py:12-47 | every known marker name has an entry in the default reference table, so the 0-1000 fallback range is never used for them |
| TextToCase.LengthsDescend | backend/core/text_to_case.py:137 | names whose neighbours descend in length descend throughout |
| TextToCase.ContextOfMembers | backend/core/text_to_case.py:61-67 | a context key is set exactly when one of its keywords occurs in the lower-cased text, and only ever to true |
| TextToCase.ExtractContext | backend/core/text_to_case.py:61-67 | the keyword loop builds exactly the context of the lower-cased text |
| TextToCase.VegetarianSetsVegan | backend/core/text_to_case.py:50-52 | "vegan" and "vegetarian" both set the vegan key |
| TextToCase.DedupMembers | backend/core/text_to_case.py:88-98 | keeping first occurrences keeps exactly the elements of the list |
| TextToCase.DedupDistinct | backend/core/text_to_case.py:88-98 | keeping first occurrences leaves no element twice |
| TextToCase.DedupPrefix | backend/core/text_to_case.py:88-98 | what is kept of a prefix stays at the front, in its order |
| TextToCase.ExtractSymptomTokens | backend/core/text_to_case.py:85-99 | the tokens are the first occurrences of the context keys found, then of the configured phrases found, in that order |
| TextToCase.SymptomTokensShape | backend/core/text_to_case.py:85-99 | the tokens are distinct, the context keys come first, and a string is a token exactly when it is a found key or a found phrase |
| TextToCase.JoinWords | backend/core/text_to_case.py:110-113 | words joined by single blanks give a non-empty text with non-blank ends and no run of blanks |
| TextToCase.SplitJoinWords | backend/core/text_to_case.py:110-113 | words joined by single blanks split back into the same words |
| TextToCase.NormalizeFallbackNameShape | backend/core/text_to_case.py:110-113 | a name with words becomes its words joined by single blanks, with the same words, and normalising again changes nothing; a name without words is returned as it is |
| TextToCase.MarkerSetMembers | backend/core/text_to_case.py:136-157 | a name is taken exactly when some row carries it |
| TextToCase.ScanKnown | backend/core/text_to_case.py:143-165 | the loop over one marker's matches adds exactly the specified rows, and its set of taken names stays the names of the rows |
| TextToCase.FallbackStepTakes | backend/core/text_to_case.py:171-192 | a fallback match whose normalised name is admitted and whose number parses appends its flagged row with range 0-0 |
| TextToCase.FallbackStepSkips | backend/core/text_to_case.py:173-181 | a fallback match with a short, known or taken name, or an unparsable number, adds nothing |
| TextToCase.TakeFallback | backend/core/text_to_case.py:171-192 | one fallback iteration yields exactly the specified step and keeps the set of taken names in step |
| TextToCase.ScanFallback | backend/core/text_to_case.py:170-192 | the fallback loop yields exactly the specified scan over the matches |
| TextToCase.ScanMarkers | backend/core/text_to_case.py:136-165 | the loop over the known markers yields exactly the known-marker phase, with the taken names in step |
| TextToCase.ParseText | backend/core/text_to_case.py:123-210 | `text_to_case` returns exactly the specified result: the two errors, or the context, the rows and the symptom tokens |
| TextToCase.FirstParsedNone | backend/core/text_to_case.py:143-146 | a marker has no usable match exactly when none of its matches has a number that parses |
| TextToCase.FirstParsedAt | backend/core/text_to_case.py:143-146 | otherwise its usable match is the earliest one whose number parses |
| TextToCase.KnownScanEffect | backend/core/text_to_case.py:143-165 | one known marker adds at most one row: none when its canonical name is taken, else the row of its first match whose number parses |
| TextToCase.KnownPhaseShape | backend/core/text_to_case.py:136-165 | the known-marker phase gives distinct names, each row with its marker's canonical name and reference range, and a blank unit only when the default unit is blank too |
| TextToCase.KnownScanAddsRow | backend/core/text_to_case.py:143-165 | a free marker with a parsing match adds one row from its first such match: canonical name, value, range, and the stripped unit or, when blank, the default unit |
| TextToCase.KnownScanAddsNothing | backend/core/text_to_case.py:143-157 | a marker whose canonical name is taken, or none of whose matches parses, adds no row |
| TextToCase.FallbackScanEffect | backend/core/text_to_case.py:167-192 | the fallback keeps the earlier rows, adds only flagged rows with names of two or more characters that are no known marker in any case, and never a name twice |
| TextToCase.PhasesShape | backend/core/text_to_case.py:136-192 | both phases together give distinct names, each row from a known marker or the fallback, and no known row after a fallback row |
| TextToCase.ParseCaseShape | backend/core/text_to_case.py:123-210 | a blank text is refused with "No text provided.", the only other error is the hint for a text without labs, and a parsed case has at least one row, distinct names, known rows first |
| TextToCase.FallbackRowsUnknownReference | backend/core/text_to_case.py:184-192 | a fallback row, with its 0-0 range, is reported with reference status unknown once normalised |
| TextToCase.ParseCase | backend/core/text_to_case.py:123-210 | the two errors, otherwise context, known rows, fallback rows and symptom tokens (ParseCaseShape, PhasesShape) |
| TextToCase.NormalizeFallbackName | backend/core/text_to_case.py:110-113 | whitespace runs become one blank and the ends are stripped; a name with nothing left is returned unchanged (NormalizeFallbackNameShape) |
| TextToCase.ParseNumber | backend/core/text_to_case.py:102-107 | the float parse of the stripped text with commas read as decimal points |
| TextToCase.KnownStep | backend/core/text_to_case.py:143-165 | a match whose number parses adds one row for the canonical marker unless that marker already has one (KnownScanEffect) |
| TextToCase.FallbackStep | backend/core/text_to_case.py:170-192 | an admitted match whose number parses adds one flagged 0-0 row (FallbackStepTakes, FallbackStepSkips) |
| PatchApply.PathParts | backend/app.py:113 | a path always splits into at least one segment |
| PatchApply.Walk | backend/app.py:114-119 | the walk down the path's leading segments reaches exactly the element the specified descent reaches, or fails with the same exception |
| PatchApply.ApplyPatches | backend/app.py:107-123 | a passing report leaves the output alone; a failing one applies its patches in order, the first exception aborting |
| PatchApply.ActionPathParts | backend/core/guardrails.py:29 | an action patch path `/patient_actions/i` splits into "patient_actions" and the digits of i |
| PatchApply.FourSegmentPath | backend/app.py:113 | a path of four separator-free segments splits back into them |
| PatchApply.EvidencePathParts | backend/core/guardrails.py:46 | an evidence patch path `/hypotheses/h/evidence/e` splits into its four segments |
| PatchApply.DescendFromString | backend/app.py:115-119 | a walk that starts at a string only ever reaches strings |
| PatchApply.StringsRejectRemoval | backend/app.py:120-121 | nothing below a string can be deleted |
| PatchApply.RemoveUnderKey | backend/app.py:111-121 | a remove patch `/key/num` on an object whose key holds a list deletes the element at that index, or fails with IndexError past the end |
| PatchApply.RemoveActionEffect | backend/app.py:111-121 | removing `/patient_actions/i` deletes exactly the action at i, or fails with IndexError when there is none |
| PatchApply.DeleteTwice | backend/app.py:120-121 | deleting position i and then position j (i <= j) removes the elements originally at i and j+1 |
| PatchApply.ApplyPair | backend/app.py:111-121 | two patches apply one after the other, the first failure aborting |
| PatchApply.NoIndexAdjustment | backend/app.py:111-121 | later patches are not adjusted for earlier deletions: removing actions i then j deletes the ones originally at i and j+1 |
| PatchApply.Removals | backend/app.py:112 | the patches that act are exactly the "remove" patches |
| PatchApply.OnlyRemovalsAct | backend/app.py:111-112 | applying the patches is applying only their "remove" patches |
| PatchApply.RepeatedRemoveHitsNeighbour | backend/app.py:111-121 | the same action named twice, as written: the second patch deletes its right neighbour, or fails with IndexError when it was the last action |
| PatchApply.LoneActionPatchedTwice | backend/app.py:111-121 | the two identical patches for a lone action make the patch loop fail with IndexError |
| PatchApply.DoseOnlyActionCrashes | backend/app.py:105-123 | a reply whose one action is a "dose" task fails the guardrails and its patches raise IndexError |
| PatchApply.Unflagged | backend/app.py:111-121 | the unflagged positions lie below the list length |
| PatchApply.UnflaggedShape | backend/app.py:111-121 | the unflagged positions ascend and are exactly the positions below the length that no patch names |
| PatchApply.KeepUnflaggedSelects | backend/app.py:111-121 | the corrected removal drops each flagged action once and keeps the others in order: it selects the items at the unflagged positions |
| PatchApply.RemoveFlaggedIgnoresRepeats | backend/app.py:111-121 | the corrected removal depends only on which patches occur, not on their order or repetition |
| PatchApply.RemoveFlaggedAgreesOnOnePatch | backend/app.py:111-121 | where the patch loop is right (one patch naming an existing action) the corrected removal agrees with it |
| PatchApply.KeepSkipsOne | backend/app.py:120-121 | dropping the one flagged position i is deleting the element at i |
| PatchApply.KeepNoneFlagged | backend/app.py:111-121 | with no position flagged every item is kept |
| PatchApply.RemoveFlaggedOnlyAction | backend/app.py:111-121 | a lone action named by some patch is removed, however many patches name it |
| PatchApply.LoneActionRemovedOnce | backend/app.py:111-121 | with the corrected removal the two identical patches for a lone action leave no actions and no error |
| PatchApply.DoseOnlyActionRemovedOnce | backend/app.py:105-123 | with the corrected removal the reply with the one "dose" action loses that action and nothing breaks |
| PatchApply.Step | backend/app.py:115-119 | one step of the walk: a digit segment indexes, any other segment is a key; a wrong type or missing entry is the matching exception |
| PatchApply.DeleteIndex | backend/app.py:120-121 | `del obj[int(last)]`: removes exactly one list element, counting negative indices from the end; IndexError out of range, ValueError for a non-integer (RemoveUnderKey) |
| PatchApply.RemoveFlaggedActions | backend/app.py:111-121 | the corrected removal: every action named by a remove patch is dropped once, the others kept in order (KeepUnflaggedSelects, RemoveFlaggedIgnoresRepeats) |

## Left out

- The language-model branches are gates or parameters. Left out entirely are `call_agent`, `_build_prompt`, `_load_prompt_template`, `_get_decision_rationale`, `_call_model_for_token` prompt text, `_model_impression`, `_summarize_hypotheses`, and the model branch of `get_evidence_weight`, which is taken to fall through to the rule path. These are model I/O, template files and prompt strings.
- Configuration from YAML and JSON files and from `os.getenv` enters as parameters: the marker-to-node map, dynamic edge rules, symptom rules, weights and prompt presence.
- Events, logging, timestamps (`datetime.now()` becomes a `today` parameter) and file I/O are left out. So is everything in `backend/app.py` outside the patch loop, since its routes and threads are I/O and concurrency.
- Regex matching in `text_to_case` (IGNORECASE, lazy quantifiers, `finditer`) is not modelled. The matches are given as input lists.
- Case mapping and `\w` are ASCII-only. Python's Unicode case and word-character tables are not modelled; `isspace` follows Python's full whitespace set.
- Floating point is modelled as exact `real` arithmetic. `round(x, 2)` and `float()` parsing are abstract function parameters, and `:.2f` formatting is not modelled.
- `int()` is modelled for blanks, an optional sign and ASCII digits. Underscore separators and non-ASCII digits are not accepted.
- Values of the wrong JSON type (a non-list field, a dict-valued or non-dict symptom rule) are modelled where the code tests for them with `isinstance`. Elsewhere (confidences, counts) the model assumes the shapes of `schemas.py`.
- AgentManager.HasComorbidities: a truthy age that is not a number (a string, say) makes Python's `age > 65` raise TypeError; the model returns false for it instead, since the patient context holds numeric ages.
- SymptomMapper.SuggestionOf: a rule field that is present but not a string (a number for `relation`, say) is read as "", so a truthy non-string relation becomes SUPPORTS where Python would keep it. Strings are the only values the rule file holds.
- The constant `"description"` field of dynamic and symptom nodes and the `"source_label"` field of their edges are not modelled. Nothing in the core reads them.
- The subgraph dict is overwritten in place by `extend_subgraph` and `map_symptoms_to_graph`. Here the new graph is returned as a value, so aliasing of the caller's dict is not captured.
- `list(set(...))` in `subgraph_from_markers` has hash order. The model picks an arbitrary enumeration and proves only what holds for every order.
- In `run_pipeline`, `reason` and `check_guardrails` are called with signatures that differ from their definitions, `wait_for_model` is undefined, and `HTTPException` is not imported. The model follows the definitions in `backend/core`.
- GR_005 evidence patches suffer the same missing index adjustment as action patches. Only the action case is corrected in the model (see Findings). The evidence case is modelled as written.
- The `before` snapshot in `run_pipeline` is a shallow copy sharing lists with the mutated output. The model keeps the old value apart.
- Reasoner.RefsJson: states only that the JSON list has one entry per evidence reference. The field contents follow from its body.
- Reasoner.ActionsJson: states only that the JSON list has one entry per action. The field contents follow from its body.
- `model_manager.py`, `explanation_medgemma.py`, `events.py`, the offline tooling and the evaluation scripts are not part of this model.

## Findings

| source | as written | input that shows it | evidently intended | confidence | as-written member | corrected member |
|---|---|---|---|---|---|---|
| backend/app.py:111-121 | GR_003 and GR_004 both emit `remove /patient_actions/i` for an action that mentions a dose and names no bucket. The loop deletes by index with no deduplication or adjustment, so the second patch deletes the neighbour or raises IndexError | a reasoner output whose only action has task "dose": patches `[remove /patient_actions/0, remove /patient_actions/0]`, and the second delete hits an empty list | each flagged action is removed once; repeats and order do not matter; other actions survive | not executed | PatchApply.DoseOnlyActionCrashes | PatchApply.DoseOnlyActionRemovedOnce |
