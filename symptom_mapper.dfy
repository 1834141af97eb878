/** Symptom mapping: free-text symptom tokens become Symptom nodes with an edge
    to a signalled pattern already in the subgraph, chosen by a configured rule
    (or by a model's verdict, given here as an input); tokens that cannot be
    placed are reported as unmappable. */
module SymptomMapper {
  import opened Wrappers
  import opened Strings
  import opened Graph
  import opened Seqs
  import opened DynamicGraph

  // --------------------------------------------------------------- node ids

  /** `\w` and `-` (ASCII letters, digits, underscore, hyphen). */
  predicate IsIdChar(c: char) {
    ('a' <= c <= 'z') || ('A' <= c <= 'Z') || IsDigit(c) || c == '_' || c == '-'
  }

  /** `re.sub(r"[^\w\-]", "_", s)`. */
  function SafeId(s: string): (r: string)
    ensures |r| == |s|
    ensures forall i :: 0 <= i < |s| ==> r[i] == if IsIdChar(s[i]) then s[i] else '_'
  {
    seq(|s|, i requires 0 <= i < |s| => if IsIdChar(s[i]) then s[i] else '_')
  }

  /** `_symptom_to_node_id`: "s_" and the stripped, lower-cased token with every
      other character made "_", or "s_unknown" for a blank token. */
  function SymptomNodeId(token: string): (nid: string)
    ensures |nid| >= 2 && nid[..2] == "s_"
    ensures Strip(token) == "" ==> nid == "s_unknown"
    ensures Strip(token) != "" ==> |nid| == 2 + |Strip(token)| && forall i :: 2 <= i < |nid| ==> IsIdChar(nid[i])
    ensures Strip(token) != "" ==> forall i :: 0 <= i < |Strip(token)| ==>
      nid[2 + i] == if IsIdChar(LowerChar(Strip(token)[i])) then LowerChar(Strip(token)[i]) else '_'
  {
    var safe := SafeId(Lower(Strip(token)));
    if safe != "" then "s_" + safe else "s_unknown"
  }

  /** Letters and blanks: the characters of a plain symptom phrase. */
  predicate PlainChar(c: char) {
    ('a' <= c <= 'z') || ('A' <= c <= 'Z') || c == ' '
  }

  /** A plain phrase that starts and ends with a letter is its own `strip()`. */
  lemma PlainPhraseStripped(t: string)
    requires t != [] && t[0] != ' ' && t[|t| - 1] != ' ' && forall i :: 0 <= i < |t| ==> PlainChar(t[i])
    ensures Strip(t) == t
  {
    assert !IsSpace(t[0]) && !IsSpace(t[|t| - 1]);
    StripNonBlankEnds(t);
  }

  /** A plain phrase becomes "s_" and the phrase lower-cased with its blanks
      made "_" ("Shortness of breath" gives "s_shortness_of_breath"). */
  lemma PlainPhraseNodeId(t: string)
    requires t != [] && Strip(t) == t && forall i :: 0 <= i < |t| ==> PlainChar(t[i])
    ensures SymptomNodeId(t) == "s_" + ReplaceChar(Lower(t), ' ', '_')
  {
    var l := Lower(t);
    forall i | 0 <= i < |l| ensures SafeId(l)[i] == ReplaceChar(l, ' ', '_')[i] {
      PlainCharLowered(t[i]);
    }
    assert SafeId(l) == ReplaceChar(l, ' ', '_');
    assert SafeId(Lower(Strip(t))) != "";
  }

  /** Lower-casing a letter gives an id character; a blank is not one. */
  lemma PlainCharLowered(c: char)
    requires PlainChar(c)
    ensures IsIdChar(LowerChar(c)) <==> c != ' '
    ensures c == ' ' ==> LowerChar(c) == ' '
  {
  }

  /** A word of small letters is its own id after "s_" ("fatigue" gives
      "s_fatigue"). */
  lemma SymptomNodeIdOfSmallWord(w: string)
    requires w != [] && forall i :: 0 <= i < |w| ==> 'a' <= w[i] <= 'z'
    ensures SymptomNodeId(w) == "s_" + w
  {
    assert SymptomNodeId(w) == "s_" + ReplaceChar(Lower(w), ' ', '_') by {
      PlainPhraseStripped(w);
      PlainPhraseNodeId(w);
    }
    SmallWordUnchanged(w);
  }

  lemma SmallWordUnchanged(w: string)
    requires forall i :: 0 <= i < |w| ==> 'a' <= w[i] <= 'z'
    ensures ReplaceChar(Lower(w), ' ', '_') == w
  {
    var l := Lower(w);
    forall i | 0 <= i < |w| ensures l[i] == w[i] {
      assert !('A' <= w[i] <= 'Z');
    }
    assert l == w;
    forall i | 0 <= i < |w| ensures ReplaceChar(l, ' ', '_')[i] == w[i] {
      assert l[i] != ' ';
    }
  }

  // ------------------------------------------------------------ suggestions

  /** A pattern to map a token to, with its relation and rationale. */
  datatype Suggestion = Suggestion(patternId: string, relation: string, rationale: string)

  /** The configuration entry `_get_rule_suggestion` reads is `key`: the entry
      for the stripped, lower-cased token when it is truthy, else the entry for the
      token as given when that one is. */
  predicate Picked(config: map<string, Json>, token: string, key: string) {
    var lower := Lower(Strip(token));
    && key in config && Truthy(config[key])
    && (key == lower || (key == token && !(lower in config && Truthy(config[lower]))))
  }

  /** The first rule of an entry when it is a dict: the first element of a list,
      or the entry itself when the entry is not a list. */
  function FirstDict(entry: Json): (r: Option<map<string, Json>>)
    ensures r.Some? <==> entry.JObj? || (entry.JList? && entry.items != [] && entry.items[0].JObj?)
  {
    match entry
    case JList(items) => if items != [] && items[0].JObj? then Some(items[0].fields) else None
    case JObj(fields) => Some(fields)
    case _ => None
  }

  /** A rule dict read as a suggestion: relation "SUPPORTS" and rationale "" when
      missing or empty. */
  function SuggestionOf(rule: map<string, Json>): (s: Suggestion)
    ensures s.relation != ""
    ensures s.patternId == Text(Get(rule, "pattern_id")) && s.rationale == Text(Get(rule, "rationale"))
    ensures Text(Get(rule, "relation")) != "" ==> s.relation == Text(Get(rule, "relation"))
  {
    var rel := Text(Get(rule, "relation"));
    Suggestion(Text(Get(rule, "pattern_id")), if rel != "" then rel else "SUPPORTS", Text(Get(rule, "rationale")))
  }

  /** `_get_rule_suggestion`: the first rule of the picked entry when it is a
      dict; None (the empty dict) when no entry is picked or its first rule is
      not a dict. */
  function RuleSuggestion(config: map<string, Json>, token: string): (r: Option<Suggestion>)
    ensures r.Some? <==> exists key :: Picked(config, token, key) && FirstDict(config[key]).Some?
    ensures forall key :: Picked(config, token, key) && FirstDict(config[key]).Some? ==>
      r == Some(SuggestionOf(FirstDict(config[key]).value))
    ensures r.Some? ==> r.value.relation != ""
  {
    var lower := Lower(Strip(token));
    var rules := if lower in config && Truthy(config[lower]) then config[lower]
                 else if token in config && Truthy(config[token]) then config[token]
                 else JList([]);
    if !Truthy(rules) then None
    else
      match FirstDict(rules)
      case None => None
      case Some(rule) => Some(SuggestionOf(rule))
  }

  /** A token with no truthy entry, under either spelling, has no suggestion. */
  lemma NoEntryNoSuggestion(config: map<string, Json>, token: string)
    requires !(Lower(Strip(token)) in config && Truthy(config[Lower(Strip(token))]))
    requires !(token in config && Truthy(config[token]))
    ensures RuleSuggestion(config, token) == None
  {
    forall key ensures !Picked(config, token, key) { }
  }

  /** An entry that is a single non-empty dict, not a list, is used as the rule. */
  lemma DictEntryIsTheRule(config: map<string, Json>, token: string, rule: map<string, Json>)
    requires Lower(Strip(token)) in config && config[Lower(Strip(token))] == JObj(rule) && rule != map[]
    ensures RuleSuggestion(config, token) == Some(SuggestionOf(rule))
  {
    assert Picked(config, token, Lower(Strip(token)));
  }

  /** A list entry whose first rule is not a dict gives no suggestion, even when
      a later rule is one. */
  lemma NonDictFirstRuleGivesNone(config: map<string, Json>, token: string, first: Json, rest: seq<Json>)
    requires Lower(Strip(token)) in config && config[Lower(Strip(token))] == JList([first] + rest)
    requires !first.JObj?
    ensures RuleSuggestion(config, token) == None
  {
    var lower := Lower(Strip(token));
    assert Picked(config, token, lower);
    forall key | Picked(config, token, key) ensures key == lower { }
  }

  // --------------------------------------------------------------- choices

  /** What to do with one token: "keep", "change" or "do_not_map", and where to. */
  datatype Choice = Choice(action: string, patternId: string, relation: string, rationale: string)

  const DoNotMap := Choice("do_not_map", "", "SUPPORTS", "")

  /** The no-model rule: keep the rule's pattern exactly when it is signalled. */
  function RuleChoice(suggested: Option<Suggestion>, signals: seq<string>): (c: Choice)
    ensures c.action == "keep" <==> suggested.Some? && suggested.value.patternId in signals
    ensures c.action == "keep" ==> c.patternId == suggested.value.patternId && c.relation == suggested.value.relation
    ensures c.action != "keep" ==> c.action == "do_not_map"
  {
    if suggested.Some? && suggested.value.patternId in signals
    then Choice("keep", suggested.value.patternId, suggested.value.relation, suggested.value.rationale)
    else DoNotMap
  }

  /** A string-valued field of a reply, "" when missing or not a string. */
  function Text(j: Json): string {
    if j.JStr? then j.s else ""
  }

  /** `_call_model_for_token` after the model has answered: `reply` is the JSON
      object it produced, or None when there was none (no prompt, no JSON, an
      exception). Only keep/change with a pattern id counts. */
  function ModelChoice(reply: Option<Json>): (c: Choice)
    ensures c.action == "keep" || c.action == "change" || c == DoNotMap
    ensures (c.action == "keep" || c.action == "change") ==>
      c.patternId != "" && reply.Some? && reply.value.JObj? &&
      Text(Get(reply.value.fields, "pattern_id")) == c.patternId &&
      Lower(Text(Get(reply.value.fields, "action"))) == c.action
    ensures c.relation != ""
  {
    match reply
    case Some(JObj(fields)) =>
      if fields == map[] then DoNotMap
      else
        var action := Lower(Text(Get(fields, "action")));
        var pid := Text(Get(fields, "pattern_id"));
        var rel := Text(Get(fields, "relation"));
        if (action == "keep" || action == "change") && pid != ""
        then Choice(action, pid, if rel != "" then rel else "SUPPORTS", Text(Get(fields, "rationale")))
        else DoNotMap
    case _ => DoNotMap
  }

  /** `os.getenv("USE_SYMPTOM_MAPPER_MODEL", "1")` is on unless it reads "0" or "false". */
  predicate SymptomModelEnabled(env: Option<string>) {
    var v := Lower(Strip(env.GetOr("1")));
    v != "0" && v != "false"
  }

  /** The model is consulted only outside lite mode, with a loaded model and the setting on. */
  predicate UsesModel(liteMode: bool, modelLoaded: bool, env: Option<string>) {
    !liteMode && modelLoaded && SymptomModelEnabled(env)
  }

  /** Everything a call works with besides the tokens. */
  datatype Mapper = Mapper(
    signals: seq<string>,
    config: map<string, Json>,
    useModel: bool,
    reply: (string, Option<Suggestion>) -> Option<Json>)

  function Choose(m: Mapper, token: string): Choice {
    var suggested := RuleSuggestion(m.config, token);
    if m.useModel then ModelChoice(m.reply(token, suggested)) else RuleChoice(suggested, m.signals)
  }

  /** A choice is carried out when it keeps or changes toward a signalled pattern already present. */
  predicate Carried(c: Choice, signals: seq<string>, ids: set<string>) {
    (c.action == "keep" || c.action == "change") && c.patternId != "" && c.patternId in signals && c.patternId in ids
  }

  // ---------------------------------------------------------------- mapping

  /** `token.replace("_", " ").strip()`, or the token itself when that is empty. */
  function SymptomLabel(token: string): string {
    var l := Strip(ReplaceChar(token, '_', ' '));
    if l != "" then l else token
  }

  function SymptomNode(nodeId: string, token: string): Node {
    Node(nodeId, "Symptom", SymptomLabel(token), true)
  }

  /** `e_sym_{node}_{pattern}_{n}`. */
  function SymEdgeId(nodeId: string, patternId: string, n: nat): string {
    ("e_sym_" + nodeId + "_" + patternId) + ['_'] + NatToString(n)
  }

  lemma SymEdgeIdsDiffer(s1: string, p1: string, n1: nat, s2: string, p2: string, n2: nat)
    requires n1 != n2
    ensures SymEdgeId(s1, p1, n1) != SymEdgeId(s2, p2, n2)
  {
    if SymEdgeId(s1, p1, n1) == SymEdgeId(s2, p2, n2) {
      NatToStringHasNo(n1, '_');
      NatToStringHasNo(n2, '_');
      SameTailAfterLastSeparator("e_sym_" + s1 + "_" + p1, NatToString(n1), "e_sym_" + s2 + "_" + p2, NatToString(n2), '_');
      NatToStringInjective(n1, n2);
    }
  }

  /** The lists being built, the ids present so far, and the edge counter. */
  datatype MapState = MapState(nodes: seq<Node>, edges: seq<Edge>, unmappable: seq<string>, ids: set<string>, counter: nat)

  /** One token: "" is skipped; otherwise the stripped token is skipped when its
      node id is present, placed when its choice is carried out, and reported
      unmappable when not. */
  function Step(m: Mapper, st: MapState, token: string): MapState {
    if token == "" then st
    else
      var t := Strip(token);
      var nid := SymptomNodeId(t);
      if nid in st.ids then st
      else
        var c := Choose(m, t);
        if Carried(c, m.signals, st.ids) then Place(st, nid, t, c)
        else st.(unmappable := st.unmappable + [t])
  }

  /** A placed token: its node, its edge to the chosen pattern, its id now present. */
  function Place(st: MapState, nid: string, t: string, c: Choice): MapState {
    MapState(st.nodes + [SymptomNode(nid, t)],
             st.edges + [Edge(SymEdgeId(nid, c.patternId, st.counter + 1), nid, c.patternId, c.relation, c.rationale)],
             st.unmappable, st.ids + {nid}, st.counter + 1)
  }

  /** The state after the given tokens, starting from the subgraph's node ids. */
  function Mapped(m: Mapper, ids: set<string>, tokens: seq<string>): MapState {
    if tokens == [] then MapState([], [], [], ids, 0)
    else Step(m, Mapped(m, ids, tokens[..|tokens| - 1]), tokens[|tokens| - 1])
  }

  lemma MappedStep(m: Mapper, ids: set<string>, tokens: seq<string>, i: nat)
    requires i < |tokens|
    ensures Mapped(m, ids, tokens[..i + 1]) == Step(m, Mapped(m, ids, tokens[..i]), tokens[i])
  {
    assert tokens[..i + 1][..i] == tokens[..i];
  }

  /** The body of the token loop: one token against the lists built so far. */
  method MapToken(m: Mapper, st: MapState, rawToken: string) returns (next: MapState)
    ensures next == Step(m, st, rawToken)
  {
    if rawToken == "" {
      return st;
    }
    var token := Strip(rawToken);
    var nodeId := SymptomNodeId(token);
    if nodeId in st.ids {
      return st;
    }
    var suggested := RuleSuggestion(m.config, token);
    var choice: Choice;
    if !m.useModel {
      choice := RuleChoice(suggested, m.signals);
    } else {
      choice := ModelChoice(m.reply(token, suggested));
    }
    assert choice == Choose(m, token);
    if (choice.action == "keep" || choice.action == "change") && choice.patternId != ""
       && choice.patternId in m.signals && choice.patternId in st.ids {
      next := Place(st, nodeId, token, choice);
    } else {
      next := st.(unmappable := st.unmappable + [token]);
    }
  }

  /** `map_symptoms_to_graph`: returns the nodes and edges to add and the unmappable tokens. */
  method MapSymptomsToGraph(tokens: seq<string>, signals: seq<string>, subgraph: Graph, config: map<string, Json>,
                            liteMode: bool, modelLoaded: bool, env: Option<string>,
                            reply: (string, Option<Suggestion>) -> Option<Json>)
    returns (nodesToAdd: seq<Node>, edgesToAdd: seq<Edge>, unmappable: seq<string>)
    ensures var st := Mapped(Mapper(signals, config, UsesModel(liteMode, modelLoaded, env), reply), NodeIds(subgraph.nodes), tokens);
      nodesToAdd == st.nodes && edgesToAdd == st.edges && unmappable == st.unmappable
  {
    var m := Mapper(signals, config, UsesModel(liteMode, modelLoaded, env), reply);
    var ids0 := NodeIds(subgraph.nodes);
    var st := MapState([], [], [], ids0, 0);
    for i := 0 to |tokens|
      invariant Mapped(m, ids0, tokens[..i]) == st
    {
      MappedStep(m, ids0, tokens, i);
      st := MapToken(m, st, tokens[i]);
    }
    assert tokens[..|tokens|] == tokens;
    nodesToAdd, edgesToAdd, unmappable := st.nodes, st.edges, st.unmappable;
  }

  // -------------------------------------------------------------- properties

  /** The shape the mapping keeps: one edge per node, from that node, numbered
      in order, toward a signalled pattern present at the time; node ids are new
      and distinct, and every id present stays present. */
  ghost predicate WellFormed(m: Mapper, ids0: set<string>, st: MapState) {
    && |st.nodes| == |st.edges| == st.counter
    && ids0 <= st.ids
    && (forall k :: 0 <= k < |st.nodes| ==>
          && st.nodes[k].nodeType == "Symptom" && st.nodes[k].isDynamic
          && st.nodes[k].id in st.ids && st.nodes[k].id !in ids0
          && st.edges[k].from == st.nodes[k].id
          && st.edges[k].to != "" && st.edges[k].to in m.signals && st.edges[k].to in st.ids
          && st.edges[k].id == SymEdgeId(st.nodes[k].id, st.edges[k].to, k + 1))
    && (forall k, l :: 0 <= k < l < |st.nodes| ==> st.nodes[k].id != st.nodes[l].id)
  }

  lemma PlaceKeepsWellFormed(m: Mapper, ids0: set<string>, st: MapState, nid: string, t: string, c: Choice)
    requires WellFormed(m, ids0, st)
    requires nid !in st.ids && Carried(c, m.signals, st.ids)
    ensures WellFormed(m, ids0, Place(st, nid, t, c))
  {
    var st' := Place(st, nid, t, c);
    var n := |st.nodes|;
    forall k | 0 <= k < n + 1
      ensures && st'.nodes[k].nodeType == "Symptom" && st'.nodes[k].isDynamic
              && st'.nodes[k].id in st'.ids && st'.nodes[k].id !in ids0
              && st'.edges[k].from == st'.nodes[k].id
              && st'.edges[k].to != "" && st'.edges[k].to in m.signals && st'.edges[k].to in st'.ids
              && st'.edges[k].id == SymEdgeId(st'.nodes[k].id, st'.edges[k].to, k + 1)
    {
      if k < n {
        assert st'.nodes[k] == st.nodes[k] && st'.edges[k] == st.edges[k];
      } else {
        assert st'.nodes[k] == SymptomNode(nid, t);
      }
    }
    forall k, l | 0 <= k < l < n + 1 ensures st'.nodes[k].id != st'.nodes[l].id {
      assert st'.nodes[k] == st.nodes[k];
      if l == n {
        assert st.nodes[k].id in st.ids;
      } else {
        assert st'.nodes[l] == st.nodes[l];
      }
    }
  }

  lemma StepKeepsWellFormed(m: Mapper, ids0: set<string>, st: MapState, token: string)
    requires WellFormed(m, ids0, st)
    ensures WellFormed(m, ids0, Step(m, st, token))
  {
    if token != "" {
      var t := Strip(token);
      var nid := SymptomNodeId(t);
      var c := Choose(m, t);
      if nid !in st.ids && Carried(c, m.signals, st.ids) {
        PlaceKeepsWellFormed(m, ids0, st, nid, t, c);
      }
    }
  }

  lemma {:induction false} MappedWellFormed(m: Mapper, ids: set<string>, tokens: seq<string>)
    ensures WellFormed(m, ids, Mapped(m, ids, tokens))
  {
    if tokens != [] {
      MappedWellFormed(m, ids, tokens[..|tokens| - 1]);
      StepKeepsWellFormed(m, ids, Mapped(m, ids, tokens[..|tokens| - 1]), tokens[|tokens| - 1]);
    }
  }

  /** Edge ids created in one call are pairwise distinct. */
  lemma MappedEdgeIdsDistinct(m: Mapper, ids: set<string>, tokens: seq<string>, k: nat, l: nat)
    requires k < l < |Mapped(m, ids, tokens).edges|
    ensures Mapped(m, ids, tokens).edges[k].id != Mapped(m, ids, tokens).edges[l].id
  {
    MappedWellFormed(m, ids, tokens);
    var st := Mapped(m, ids, tokens);
    SymEdgeIdsDiffer(st.nodes[k].id, st.edges[k].to, k + 1, st.nodes[l].id, st.edges[l].to, l + 1);
  }

  /** A token that is empty, or whose node id is already present, changes nothing. */
  lemma SkippedTokenChangesNothing(m: Mapper, st: MapState, token: string)
    requires token == "" || SymptomNodeId(Strip(token)) in st.ids
    ensures Step(m, st, token) == st
  {
  }

  /** Any other token has exactly one effect, appended in order: one node and
      one edge, or one unmappable entry. */
  lemma StepOneOutcome(m: Mapper, st: MapState, token: string)
    requires token != "" && SymptomNodeId(Strip(token)) !in st.ids
    ensures var st' := Step(m, st, token);
      || (st'.nodes == st.nodes + [SymptomNode(SymptomNodeId(Strip(token)), Strip(token))]
          && |st'.edges| == |st.edges| + 1 && st'.edges[..|st.edges|] == st.edges && st'.unmappable == st.unmappable)
      || (st'.nodes == st.nodes && st'.edges == st.edges && st'.unmappable == st.unmappable + [Strip(token)])
  {
    var t := Strip(token);
    var c := Choose(m, t);
    if Carried(c, m.signals, st.ids) {
      var st' := Place(st, SymptomNodeId(t), t, c);
      assert st'.edges[..|st.edges|] == st.edges;
    }
  }

  /** In the no-model path a token is placed exactly when its rule's pattern is
      signalled and already present. */
  lemma RulePathPlacesIff(m: Mapper, st: MapState, token: string)
    requires !m.useModel && token != "" && SymptomNodeId(Strip(token)) !in st.ids
    ensures var s := RuleSuggestion(m.config, Strip(token));
      |Step(m, st, token).nodes| == |st.nodes| + 1 <==>
        s.Some? && s.value.patternId != "" && s.value.patternId in m.signals && s.value.patternId in st.ids
  {
  }

  /** No tokens, nothing to add and nothing unmappable. */
  lemma NoTokensNoOutcome(m: Mapper, ids: set<string>)
    ensures Mapped(m, ids, []) == MapState([], [], [], ids, 0)
  {
  }
}
