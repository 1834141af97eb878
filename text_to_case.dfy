/** The rule-based free-text parser: a case (patient context, lab rows and
    symptom tokens) from a paragraph of text. The regular-expression
    searches are given as their lists of matches; number parsing (`float`)
    and today's date are given too. */
module TextToCase {
  import opened Wrappers
  import opened Strings
  import opened LabNormalizer

  // ------------------------------------------------------------ tables

  /** `MARKER_NAMES`, in the order the source lists them. */
  const MarkerNames: seq<string> := [
    "Absolute neutrophil count", "Total Cholesterol", "Reticulocyte Count", "Vitamin B12",
    "Triglycerides", "hsCRP", "Ferritin", "Folate", "Creatinine",
    "Platelets", "Glucose", "Iron", "TSAT", "Hb", "MCV", "RDW",
    "TSH", "FT4", "FT3", "ALT", "AST", "WBC", "LDL", "HDL",
    "ANC"]

  /** The known marker names, longest first; among names of equal length the
      order of the source's list is kept (`sorted(..., key=len, reverse=True)`
      is stable). */
  const MarkerOrder: seq<string> := [
    "Absolute neutrophil count", "Reticulocyte Count", "Total Cholesterol", "Triglycerides",
    "Vitamin B12", "Creatinine", "Platelets", "Ferritin", "Glucose", "Folate", "hsCRP",
    "Iron", "TSAT", "MCV", "RDW", "TSH", "FT4", "FT3", "ALT", "AST", "WBC", "LDL", "HDL",
    "ANC", "Hb"]

  /** Reference low, high and unit per marker name. */
  type Refs = map<string, (real, real, string)>

  /** Default reference range and unit per marker. */
  const DefaultRefs: Refs := map[
    "Ferritin" := (15.0, 150.0, "ng/mL"),
    "Iron" := (50.0, 170.0, "\U{B5}g/dL"),
    "TSAT" := (20.0, 50.0, "%"),
    "Hb" := (12.0, 16.0, "g/dL"),
    "MCV" := (80.0, 100.0, "fL"),
    "RDW" := (11.5, 14.5, "%"),
    "hsCRP" := (0.0, 3.0, "mg/L"),
    "TSH" := (0.4, 4.0, "mIU/L"),
    "FT4" := (0.8, 1.8, "ng/dL"),
    "FT3" := (2.3, 4.2, "pg/mL"),
    "Total Cholesterol" := (0.0, 200.0, "mg/dL"),
    "LDL" := (0.0, 100.0, "mg/dL"),
    "HDL" := (40.0, 100.0, "mg/dL"),
    "Triglycerides" := (0.0, 150.0, "mg/dL"),
    "ALT" := (7.0, 56.0, "U/L"),
    "AST" := (10.0, 40.0, "U/L"),
    "WBC" := (4.0, 11.0, "K/\U{B5}L"),
    "Glucose" := (70.0, 100.0, "mg/dL"),
    "Platelets" := (150.0, 450.0, "K/\U{B5}L"),
    "Creatinine" := (0.7, 1.2, "mg/dL"),
    "Folate" := (2.0, 20.0, "ng/mL"),
    "Vitamin B12" := (200.0, 900.0, "pg/mL"),
    "Reticulocyte Count" := (0.5, 2.5, "%"),
    "ANC" := (1.5, 8.0, "K/\U{B5}L"),
    "Absolute neutrophil count" := (1.5, 8.0, "K/\U{B5}L")]

  /** Keyword found in the text, and the context key it sets (always to true). */
  const ContextKeywords: seq<(string, string)> := [
    ("vegan", "vegan"), ("vegetarian", "vegan"), ("fatigue", "fatigue"), ("tired", "fatigue"),
    ("elderly", "elderly"), ("chronic disease", "chronic_disease"), ("inflammatory", "inflammatory")]

  const NoText: string := "No text provided."
  const NoLabs: string := "Could not parse any lab values from text. Try listing labs like: Ferritin 12 ng/mL, Hb 10.5 g/dL, TSH 2.6 mIU/L"

  /** The position in `MarkerNames` of each entry of `MarkerOrder`. */
  const MarkerOrderSource: seq<nat> := [0, 2, 1, 4, 3, 8, 9, 6, 10, 7, 5, 11, 12, 14, 15, 16, 17, 18, 19, 20, 21, 22, 23, 24, 13]

  /** `MarkerOrder` rearranges `MarkerNames` one-to-one ... */
  lemma MarkerOrderRearrangesNames()
    ensures |MarkerOrderSource| == |MarkerOrder| == |MarkerNames|
    ensures forall k :: 0 <= k < |MarkerOrder| ==>
      MarkerOrderSource[k] < |MarkerNames| && MarkerOrder[k] == MarkerNames[MarkerOrderSource[k]]
    ensures forall i, j :: 0 <= i < j < |MarkerOrderSource| ==> MarkerOrderSource[i] != MarkerOrderSource[j]
  {
    MarkerOrderEntries();
    MarkerOrderSourceInjective();
  }

  lemma MarkerOrderEntries()
    ensures |MarkerOrderSource| == |MarkerOrder| == |MarkerNames|
    ensures forall k :: 0 <= k < |MarkerOrder| ==>
      MarkerOrderSource[k] < |MarkerNames| && MarkerOrder[k] == MarkerNames[MarkerOrderSource[k]]
  {
  }

  lemma MarkerOrderSourceInjective()
    ensures forall i, j :: 0 <= i < j < |MarkerOrderSource| ==> MarkerOrderSource[i] != MarkerOrderSource[j]
  {
    var back := [0, 2, 1, 4, 3, 10, 7, 9, 5, 6, 8, 11, 12, 24, 13, 14, 15, 16, 17, 18, 19, 20, 21, 22, 23];
    assert forall k :: 0 <= k < |MarkerOrderSource| ==> back[MarkerOrderSource[k]] == k;
    forall i, j | 0 <= i < j < |MarkerOrderSource| ensures MarkerOrderSource[i] != MarkerOrderSource[j] {
      assert back[MarkerOrderSource[i]] == i && back[MarkerOrderSource[j]] == j;
    }
  }

  /** ... and names of equal length keep their relative order, so it is the
      stable longest-first sort of `MarkerNames`. */
  lemma MarkerOrderIsStable()
    ensures forall i, j :: 0 <= i < j < |MarkerOrder| && |MarkerOrder[i]| == |MarkerOrder[j]| ==>
      MarkerOrderSource[i] < MarkerOrderSource[j]
  {
  }

  /** Longer names are tried first. */
  lemma MarkerOrderLongestFirst()
    ensures forall i, j :: 0 <= i < j < |MarkerOrder| ==> |MarkerOrder[i]| >= |MarkerOrder[j]|
  {
    forall i | 0 <= i < |MarkerOrder| - 1
      ensures |MarkerOrder[i]| >= |MarkerOrder[i + 1]|
    {
    }
    LengthsDescend(MarkerOrder);
  }

  /** Every known marker has a reference entry, so the fallback range
      0-1000 is never used for them. */
  lemma MarkerOrderHasRefs()
    ensures forall i :: 0 <= i < |MarkerOrder| ==> MarkerOrder[i] in DefaultRefs
  {
  }

  /** A sequence whose neighbours descend in length descends throughout. */
  lemma LengthsDescend(s: seq<string>)
    requires forall i :: 0 <= i < |s| - 1 ==> |s[i]| >= |s[i + 1]|
    ensures forall i, j :: 0 <= i < j < |s| ==> |s[i]| >= |s[j]|
  {
    forall i, j | 0 <= i < j < |s|
      ensures |s[i]| >= |s[j]|
    {
      var k := i;
      while k < j
        invariant i <= k <= j && |s[i]| >= |s[k]|
      {
        k := k + 1;
      }
    }
  }

  // ----------------------------------------------------- patient context

  /** The context keys whose keywords occur in `lower`, each set to true. */
  function ContextOf(lower: string, kws: seq<(string, string)>): map<string, bool> {
    if kws == [] then map[]
    else
      var n := |kws| - 1;
      var m := ContextOf(lower, kws[..n]);
      if Contains(lower, kws[n].0) then m[kws[n].1 := true] else m
  }

  /** A key is set exactly when one of its keywords occurs, and only to true. */
  lemma {:induction false} ContextOfMembers(lower: string, kws: seq<(string, string)>, key: string)
    ensures key in ContextOf(lower, kws) <==> exists k :: 0 <= k < |kws| && kws[k].1 == key && Contains(lower, kws[k].0)
    ensures key in ContextOf(lower, kws) ==> ContextOf(lower, kws)[key]
  {
    if kws != [] {
      var n := |kws| - 1;
      ContextOfMembers(lower, kws[..n], key);
      if exists k :: 0 <= k < |kws| && kws[k].1 == key && Contains(lower, kws[k].0) {
        var k :| 0 <= k < |kws| && kws[k].1 == key && Contains(lower, kws[k].0);
        if k < n {
          assert kws[..n][k] == kws[k];
        }
      }
    }
  }

  /** `_extract_context`: the loop over the keywords of the lower-cased text. */
  method ExtractContext(text: string) returns (out: map<string, bool>)
    ensures out == ContextOf(Lower(text), ContextKeywords)
  {
    var lower := Lower(text);
    out := map[];
    for k := 0 to |ContextKeywords|
      invariant out == ContextOf(lower, ContextKeywords[..k])
    {
      assert ContextKeywords[..k + 1][..k] == ContextKeywords[..k];
      var (keyword, key) := ContextKeywords[k];
      if Contains(lower, keyword) {
        out := out[key := true];
      }
    }
    assert ContextKeywords[..|ContextKeywords|] == ContextKeywords;
  }

  /** "vegan" and "vegetarian" both set `vegan`. */
  lemma VegetarianSetsVegan(lower: string)
    requires Contains(lower, "vegan") || Contains(lower, "vegetarian")
    ensures "vegan" in ContextOf(lower, ContextKeywords) && ContextOf(lower, ContextKeywords)["vegan"]
  {
    if Contains(lower, "vegan") {
      assert ContextKeywords[0] == ("vegan", "vegan");
    } else {
      assert ContextKeywords[1] == ("vegetarian", "vegan");
    }
    ContextOfMembers(lower, ContextKeywords, "vegan");
  }

  // ------------------------------------------------------- symptom tokens

  /** The first occurrence of every element, in order. */
  function Dedup(xs: seq<string>): seq<string> {
    if xs == [] then []
    else
      var n := |xs| - 1;
      Dedup(xs[..n]) + (if xs[n] in xs[..n] then [] else [xs[n]])
  }

  lemma {:induction false} DedupMembers(xs: seq<string>)
    ensures forall x :: x in Dedup(xs) <==> x in xs
  {
    if xs != [] {
      var n := |xs| - 1;
      DedupMembers(xs[..n]);
      assert xs == xs[..n] + [xs[n]];
    }
  }

  /** No element is repeated. */
  lemma {:induction false} DedupDistinct(xs: seq<string>)
    ensures forall i, j :: 0 <= i < j < |Dedup(xs)| ==> Dedup(xs)[i] != Dedup(xs)[j]
  {
    if xs != [] {
      var n := |xs| - 1;
      DedupDistinct(xs[..n]);
      DedupMembers(xs[..n]);
    }
  }

  lemma DedupSnoc(xs: seq<string>, x: string)
    ensures Dedup(xs + [x]) == Dedup(xs) + (if x in xs then [] else [x])
  {
    assert (xs + [x])[..|xs|] == xs;
  }

  /** What is kept of a prefix stays at the front, in its order. */
  lemma {:induction false} DedupPrefix(a: seq<string>, b: seq<string>)
    ensures |Dedup(a + b)| >= |Dedup(a)| && Dedup(a + b)[..|Dedup(a)|] == Dedup(a)
  {
    if b == [] {
      assert a + b == a;
    } else {
      var n := |b| - 1;
      DedupPrefix(a, b[..n]);
      assert (a + b)[..|a + b| - 1] == a + b[..n];
    }
  }

  /** The context keys whose keywords occur, in keyword order. */
  function KeysFound(lower: string, kws: seq<(string, string)>): seq<string> {
    if kws == [] then []
    else
      var n := |kws| - 1;
      KeysFound(lower, kws[..n]) + (if Contains(lower, kws[n].0) then [kws[n].1] else [])
  }

  /** The configured phrases that occur, in configuration order. */
  function PhrasesFound(lower: string, phrases: seq<string>): seq<string> {
    if phrases == [] then []
    else
      var n := |phrases| - 1;
      PhrasesFound(lower, phrases[..n]) + (if Contains(lower, phrases[n]) then [phrases[n]] else [])
  }

  /** `_extract_symptom_tokens`; `phrases` are the keys of the symptom
      configuration, in its order. */
  lemma KeysFoundStep(lower: string, kws: seq<(string, string)>, k: nat)
    requires k < |kws|
    ensures KeysFound(lower, kws[..k + 1]) == KeysFound(lower, kws[..k]) + (if Contains(lower, kws[k].0) then [kws[k].1] else [])
  {
    assert kws[..k + 1][..k] == kws[..k];
  }

  lemma PhrasesFoundStep(lower: string, phrases: seq<string>, k: nat)
    requires k < |phrases|
    ensures PhrasesFound(lower, phrases[..k + 1]) == PhrasesFound(lower, phrases[..k]) + (if Contains(lower, phrases[k]) then [phrases[k]] else [])
  {
    assert phrases[..k + 1][..k] == phrases[..k];
  }

  /** One candidate, found or not, against the tokens kept so far and the set
      of those seen: it is kept exactly when found and not yet seen. */
  lemma DedupStep(candidates: seq<string>, tokens: seq<string>, seen: set<string>, x: string, found: bool)
    requires tokens == Dedup(candidates) && forall y :: y in seen <==> y in candidates
    ensures var next := candidates + (if found then [x] else []);
      && (found && x !in seen ==> tokens + [x] == Dedup(next) && forall y :: y in seen + {x} <==> y in next)
      && (!(found && x !in seen) ==> tokens == Dedup(next) && forall y :: y in seen <==> y in next)
  {
    if found {
      DedupSnoc(candidates, x);
    } else {
      assert candidates + [] == candidates;
    }
  }

  /** `_extract_symptom_tokens`; `phrases` are the keys of the symptom
      configuration, in its order. */
  method ExtractSymptomTokens(text: string, phrases: seq<string>) returns (tokens: seq<string>)
    ensures tokens == Dedup(KeysFound(Lower(text), ContextKeywords) + PhrasesFound(Lower(text), phrases))
  {
    var lower := Lower(text);
    tokens := [];
    var seen: set<string> := {};
    for k := 0 to |ContextKeywords|
      invariant tokens == Dedup(KeysFound(lower, ContextKeywords[..k]))
      invariant forall x :: x in seen <==> x in KeysFound(lower, ContextKeywords[..k])
    {
      var (keyword, key) := ContextKeywords[k];
      KeysFoundStep(lower, ContextKeywords, k);
      DedupStep(KeysFound(lower, ContextKeywords[..k]), tokens, seen, key, Contains(lower, keyword));
      if Contains(lower, keyword) && key !in seen {
        tokens := tokens + [key];
        seen := seen + {key};
      }
    }
    assert ContextKeywords[..|ContextKeywords|] == ContextKeywords;
    ghost var keys := KeysFound(lower, ContextKeywords);
    assert keys + PhrasesFound(lower, phrases[..0]) == keys;
    for k := 0 to |phrases|
      invariant tokens == Dedup(keys + PhrasesFound(lower, phrases[..k]))
      invariant forall x :: x in seen <==> x in keys + PhrasesFound(lower, phrases[..k])
    {
      var phrase := phrases[k];
      PhrasesFoundStep(lower, phrases, k);
      DedupStep(keys + PhrasesFound(lower, phrases[..k]), tokens, seen, phrase, Contains(lower, phrase));
      assert keys + PhrasesFound(lower, phrases[..k + 1])
          == keys + PhrasesFound(lower, phrases[..k]) + (if Contains(lower, phrase) then [phrase] else []);
      if Contains(lower, phrase) && phrase !in seen {
        tokens := tokens + [phrase];
        seen := seen + {phrase};
      }
    }
    assert phrases[..|phrases|] == phrases;
  }

  /** The tokens are distinct, the context keys come first, and every token
      is a found key or phrase and every found one is a token. */
  lemma SymptomTokensShape(lower: string, phrases: seq<string>)
    ensures var keys := KeysFound(lower, ContextKeywords);
      var tokens := Dedup(keys + PhrasesFound(lower, phrases));
      && (forall i, j :: 0 <= i < j < |tokens| ==> tokens[i] != tokens[j])
      && |tokens| >= |Dedup(keys)| && tokens[..|Dedup(keys)|] == Dedup(keys)
      && (forall x :: x in tokens <==> x in keys || x in PhrasesFound(lower, phrases))
  {
    var keys := KeysFound(lower, ContextKeywords);
    DedupDistinct(keys + PhrasesFound(lower, phrases));
    DedupPrefix(keys, PhrasesFound(lower, phrases));
    DedupMembers(keys + PhrasesFound(lower, phrases));
  }

  // -------------------------------------------------- fallback names

  /** `_normalize_fallback_name`: the words joined by single blanks, or the
      name unchanged when it has no words. */
  function NormalizeFallbackName(name: string): string {
    var s := Strip(Join(Split(name), " "));
    if s != [] then s else name
  }

  /** Blanks in `s` are single spaces between non-blanks. */
  predicate Collapsed(s: string) {
    forall k :: 0 <= k < |s| && IsSpace(s[k]) ==> s[k] == ' ' && 0 < k < |s| - 1 && !IsSpace(s[k - 1]) && !IsSpace(s[k + 1])
  }

  /** A word, a blank and a collapsed text with non-blank ends is collapsed. */
  lemma CollapsedCons(w: string, r: string)
    requires IsWord(w) && r != [] && !IsSpace(r[0]) && !IsSpace(r[|r| - 1]) && Collapsed(r)
    ensures Collapsed(w + " " + r)
  {
    var j := w + " " + r;
    forall k | 0 <= k < |j| && IsSpace(j[k])
      ensures j[k] == ' ' && 0 < k < |j| - 1 && !IsSpace(j[k - 1]) && !IsSpace(j[k + 1])
    {
      if k < |w| {
        assert false;
      } else if k == |w| {
        assert j[k - 1] == w[|w| - 1];
        assert j[k + 1] == r[0];
      } else {
        var i := k - |w| - 1;
        assert j[k] == r[i];
        assert IsSpace(r[i]);
        assert 0 < i < |r| - 1;
        assert j[k - 1] == r[i - 1];
        assert j[k + 1] == r[i + 1];
      }
    }
  }

  /** Words joined by single blanks: non-empty, with non-blank ends and
      collapsed. */
  lemma {:induction false} JoinWords(words: seq<string>)
    requires words != []
    requires forall k :: 0 <= k < |words| ==> IsWord(words[k])
    ensures var j := Join(words, " ");
      j != [] && !IsSpace(j[0]) && !IsSpace(j[|j| - 1]) && Collapsed(j)
  {
    var w := words[0];
    assert IsWord(w);
    if |words| > 1 {
      var rest := words[1..];
      JoinWords(rest);
      var r := Join(rest, " ");
      assert Join(words, " ") == w + " " + r;
      CollapsedCons(w, r);
    }
  }

  /** Words joined by single blanks split back into the same words. */
  lemma {:induction false} SplitJoinWords(words: seq<string>)
    requires forall k :: 0 <= k < |words| ==> IsWord(words[k])
    ensures Split(Join(words, " ")) == words
  {
    if |words| == 1 {
      SplitWord(words[0]);
    } else if |words| > 1 {
      var rest := words[1..];
      SplitJoinWords(rest);
      assert Join(words, " ") == words[0] + " " + Join(rest, " ");
      SplitWordThenSpace(words[0], Join(rest, " "));
      assert [words[0]] + rest == words;
    }
  }

  /** A name with words becomes its words joined by single blanks, which is
      collapsed and which normalisation leaves alone; a name without words
      is returned as it is. */
  lemma NormalizeFallbackNameShape(name: string)
    ensures Split(name) == [] ==> NormalizeFallbackName(name) == name
    ensures Split(name) != [] ==>
      var r := NormalizeFallbackName(name);
      r == Join(Split(name), " ") && Collapsed(r) && Split(r) == Split(name)
      && NormalizeFallbackName(r) == r
  {
    var words := Split(name);
    if words == [] {
      assert Join(words, " ") == "";
    } else {
      SplitGivesWords(name);
      JoinWords(words);
      SplitJoinWords(words);
      var j := Join(words, " ");
      StripNonBlankEnds(j);
      assert Strip(Join(Split(j), " ")) == j;
    }
  }

  // ------------------------------------------------------------- labs

  /** One match of a known marker's pattern: the number text and the unit
      text, if the unit group took part. */
  datatype LabMatch = LabMatch(number: string, unit: Option<string>)

  /** One match of the fallback pattern: name, number and unit groups. */
  datatype FallbackMatch = FallbackMatch(name: Option<string>, number: string, unit: Option<string>)

  /** `_parse_number`: blanks stripped, a decimal comma read as a point. */
  function ParseNumber(s: string, float: string -> Option<real>): Option<real> {
    float(ReplaceChar(Strip(s), ',', '.'))
  }

  /** `_parse_number` as a function value. */
  function NumberParser(float: string -> Option<real>): string -> Option<real> {
    s => ParseNumber(s, float)
  }

  function RefsOf(refs: Refs, marker: string): (real, real, string) {
    if marker in refs then refs[marker] else (0.0, 1000.0, "")
  }

  /** The name a lab row carries: the long neutrophil name becomes "ANC". */
  function Canonical(marker: string): string {
    if marker == "Absolute neutrophil count" then "ANC" else marker
  }

  /** The names already taken by rows. */
  function MarkerSet(labs: seq<RawLab>): set<string> {
    if labs == [] then {}
    else
      var n := |labs| - 1;
      MarkerSet(labs[..n]) + {labs[n].marker}
  }

  lemma MarkerSetSnoc(labs: seq<RawLab>, row: RawLab)
    ensures MarkerSet(labs + [row]) == MarkerSet(labs) + {row.marker}
  {
    assert (labs + [row])[..|labs|] == labs;
  }

  lemma {:induction false} MarkerSetMembers(labs: seq<RawLab>, m: string)
    ensures m in MarkerSet(labs) <==> exists i :: 0 <= i < |labs| && labs[i].marker == m
  {
    if labs != [] {
      var n := |labs| - 1;
      MarkerSetMembers(labs[..n], m);
      if exists i :: 0 <= i < |labs| && labs[i].marker == m {
        var i :| 0 <= i < |labs| && labs[i].marker == m;
        if i < n {
          assert labs[..n][i] == labs[i];
        }
      }
    }
  }

  /** The row a known marker's match gives: its reference range from the
      table, the match's unit or else the marker's default unit. */
  function KnownRow(refs: Refs, marker: string, m: LabMatch, value: real, today: string): RawLab {
    var (low, high, defaultUnit) := RefsOf(refs, marker);
    var unit := Strip(m.unit.GetOr(""));
    RawLab(Canonical(marker), value, if unit == "" then defaultUnit else unit, low, high, today, None)
  }

  /** One match of a known marker: skipped when its number does not parse or
      the canonical name is already taken. */
  function KnownStep(refs: Refs, labs: seq<RawLab>, marker: string, m: LabMatch, number: string -> Option<real>, today: string): seq<RawLab> {
    match number(m.number)
    case None => labs
    case Some(v) => if Canonical(marker) in MarkerSet(labs) then labs else labs + [KnownRow(refs, marker, m, v, today)]
  }

  /** The matches of one known marker, in text order. */
  function KnownScan(refs: Refs, labs: seq<RawLab>, marker: string, ms: seq<LabMatch>, number: string -> Option<real>, today: string): seq<RawLab> {
    if ms == [] then labs
    else
      var n := |ms| - 1;
      KnownStep(refs, KnownScan(refs, labs, marker, ms[..n], number, today), marker, ms[n], number, today)
  }

  /** All known markers in the given order; `matchesFor(marker)` are the
      matches of that marker's pattern in the text. */
  function KnownPhase(refs: Refs, labs: seq<RawLab>, markers: seq<string>, matchesFor: string -> seq<LabMatch>,
                      number: string -> Option<real>, today: string): seq<RawLab> {
    if markers == [] then labs
    else
      var n := |markers| - 1;
      KnownScan(refs, KnownPhase(refs, labs, markers[..n], matchesFor, number, today), markers[n], matchesFor(markers[n]), number, today)
  }

  /** The lower-cased known names, with "anc". */
  function KnownNames(): set<string> {
    (set m | m in MarkerOrder :: Lower(m)) + {"anc"}
  }

  /** The name group, stripped and normalised. */
  function FallbackName(m: FallbackMatch): string {
    NormalizeFallbackName(Strip(m.name.GetOr("")))
  }

  /** A fallback match is taken when its normalised name has at least two
      characters, is not a known name in any case, is not yet taken, and its
      number parses. */
  function FallbackStep(known: set<string>, labs: seq<RawLab>, m: FallbackMatch, number: string -> Option<real>, today: string): seq<RawLab> {
    var name := FallbackName(m);
    if !Admitted(known, labs, name) then labs
    else
      match number(m.number)
      case None => labs
      case Some(v) => labs + [RawLab(name, v, Strip(m.unit.GetOr("")), 0.0, 0.0, today, Some(true))]
  }

  function FallbackScan(known: set<string>, labs: seq<RawLab>, ms: seq<FallbackMatch>, number: string -> Option<real>, today: string): seq<RawLab> {
    if ms == [] then labs
    else
      var n := |ms| - 1;
      FallbackStep(known, FallbackScan(known, labs, ms[..n], number, today), ms[n], number, today)
  }

  /** One more match is one more step. */
  lemma FallbackScanStep(known: set<string>, labs: seq<RawLab>, ms: seq<FallbackMatch>, k: nat,
                         number: string -> Option<real>, today: string)
    requires k < |ms|
    ensures FallbackScan(known, labs, ms[..k + 1], number, today)
      == FallbackStep(known, FallbackScan(known, labs, ms[..k], number, today), ms[k], number, today)
  {
    assert ms[..k + 1][..k] == ms[..k];
  }

  /** The case `text_to_case` returns, without timestamps' clock. */
  datatype ParsedCase = ParsedCase(context: map<string, bool>, labs: seq<RawLab>, symptomTokens: seq<string>)

  /** `text_to_case` as a value: the errors for a blank text and for a text
      without labs, otherwise the context, the known-marker rows followed by
      the fallback rows, and the symptom tokens. */
  function ParseCase(text: string, matchesFor: string -> seq<LabMatch>, fallback: seq<FallbackMatch>,
                     phrases: seq<string>, float: string -> Option<real>, today: string): Result<ParsedCase> {
    var t := Strip(text);
    if t == [] then Err(NoText)
    else
      var labs := FallbackScan(KnownNames(), KnownPhase(DefaultRefs, [], MarkerOrder, matchesFor, NumberParser(float), today), fallback, NumberParser(float), today);
      if labs == [] then Err(NoLabs)
      else
        var lower := Lower(t);
        Ok(ParsedCase(ContextOf(lower, ContextKeywords), labs,
                      Dedup(KeysFound(lower, ContextKeywords) + PhrasesFound(lower, phrases))))
  }

  /** The inner loop over one known marker's matches, with the set of taken
      names. */
  method ScanKnown(refs: Refs, labs0: seq<RawLab>, seen0: set<string>, marker: string, ms: seq<LabMatch>,
                   number: string -> Option<real>, today: string) returns (labs: seq<RawLab>, seen: set<string>)
    requires seen0 == MarkerSet(labs0)
    ensures labs == KnownScan(refs, labs0, marker, ms, number, today)
    ensures seen == MarkerSet(labs)
  {
    labs, seen := labs0, seen0;
    for k := 0 to |ms|
      invariant labs == KnownScan(refs, labs0, marker, ms[..k], number, today)
      invariant seen == MarkerSet(labs)
    {
      assert ms[..k + 1][..k] == ms[..k];
      var value := number(ms[k].number);
      if value.Some? {
        var canonical := Canonical(marker);
        if canonical !in seen {
          var row := KnownRow(refs, marker, ms[k], value.value, today);
          MarkerSetSnoc(labs, row);
          labs := labs + [row];
          seen := seen + {canonical};
        }
      }
    }
    assert ms[..|ms|] == ms;
  }

  /** A fallback match is admitted when its name is long enough, unknown and
      not yet taken. */
  predicate Admitted(known: set<string>, labs: seq<RawLab>, name: string) {
    |name| >= 2 && Lower(name) !in known && name !in MarkerSet(labs)
  }

  lemma FallbackStepTakes(known: set<string>, labs: seq<RawLab>, m: FallbackMatch, number: string -> Option<real>, today: string)
    requires Admitted(known, labs, FallbackName(m)) && number(m.number).Some?
    ensures FallbackStep(known, labs, m, number, today)
      == labs + [RawLab(FallbackName(m), number(m.number).value, Strip(m.unit.GetOr("")), 0.0, 0.0, today, Some(true))]
  {
  }

  lemma FallbackStepSkips(known: set<string>, labs: seq<RawLab>, m: FallbackMatch, number: string -> Option<real>, today: string)
    requires !Admitted(known, labs, FallbackName(m)) || number(m.number).None?
    ensures FallbackStep(known, labs, m, number, today) == labs
  {
  }

  /** The body of the fallback loop: one match, with the set of taken names. */
  method TakeFallback(known: set<string>, labs0: seq<RawLab>, seen0: set<string>, m: FallbackMatch,
                      number: string -> Option<real>, today: string) returns (labs: seq<RawLab>, seen: set<string>)
    requires seen0 == MarkerSet(labs0)
    ensures labs == FallbackStep(known, labs0, m, number, today)
    ensures seen == MarkerSet(labs)
  {
    labs, seen := labs0, seen0;
    var name := FallbackName(m);
    if |name| >= 2 && Lower(name) !in known && name !in seen {
      var value := number(m.number);
      if value.Some? {
        var row := RawLab(name, value.value, Strip(m.unit.GetOr("")), 0.0, 0.0, today, Some(true));
        FallbackStepTakes(known, labs0, m, number, today);
        MarkerSetSnoc(labs, row);
        labs := labs + [row];
        seen := seen + {name};
      } else {
        FallbackStepSkips(known, labs0, m, number, today);
      }
    } else {
      FallbackStepSkips(known, labs0, m, number, today);
    }
  }

  /** The loop over the fallback matches. */
  method ScanFallback(known: set<string>, labs0: seq<RawLab>, seen0: set<string>, ms: seq<FallbackMatch>,
                      number: string -> Option<real>, today: string) returns (labs: seq<RawLab>)
    requires seen0 == MarkerSet(labs0)
    ensures labs == FallbackScan(known, labs0, ms, number, today)
  {
    labs := labs0;
    var seen := seen0;
    for k := 0 to |ms|
      invariant labs == FallbackScan(known, labs0, ms[..k], number, today)
      invariant seen == MarkerSet(labs)
    {
      FallbackScanStep(known, labs0, ms, k, number, today);
      labs, seen := TakeFallback(known, labs, seen, ms[k], number, today);
    }
    assert ms[..|ms|] == ms;
  }

  /** The outer loop over the known markers, in the given order. */
  method ScanMarkers(refs: Refs, markers: seq<string>, matchesFor: string -> seq<LabMatch>,
                     number: string -> Option<real>, today: string) returns (labs: seq<RawLab>, seen: set<string>)
    ensures labs == KnownPhase(refs, [], markers, matchesFor, number, today)
    ensures seen == MarkerSet(labs)
  {
    labs, seen := [], {};
    for k := 0 to |markers|
      invariant labs == KnownPhase(refs, [], markers[..k], matchesFor, number, today)
      invariant seen == MarkerSet(labs)
    {
      assert markers[..k + 1][..k] == markers[..k];
      labs, seen := ScanKnown(refs, labs, seen, markers[k], matchesFor(markers[k]), number, today);
    }
    assert markers[..|markers|] == markers;
  }

  /** `text_to_case`. */
  method ParseText(text: string, matchesFor: string -> seq<LabMatch>, fallback: seq<FallbackMatch>,
                   phrases: seq<string>, float: string -> Option<real>, today: string) returns (r: Result<ParsedCase>)
    ensures r == ParseCase(text, matchesFor, fallback, phrases, float, today)
  {
    var t := Strip(text);
    if t == [] {
      return Err(NoText);
    }
    var context := ExtractContext(t);
    var labs, seen := ScanMarkers(DefaultRefs, MarkerOrder, matchesFor, NumberParser(float), today);
    labs := ScanFallback(KnownNames(), labs, seen, fallback, NumberParser(float), today);
    if labs == [] {
      return Err(NoLabs);
    }
    var tokens := ExtractSymptomTokens(t, phrases);
    return Ok(ParsedCase(context, labs, tokens));
  }

  // ----------------------------------------------------------- properties

  /** The first match whose number parses, with its value. */
  function FirstParsed(ms: seq<LabMatch>, number: string -> Option<real>): Option<(LabMatch, real)> {
    if ms == [] then None
    else
      var n := |ms| - 1;
      var earlier := FirstParsed(ms[..n], number);
      if earlier.Some? then earlier
      else match number(ms[n].number)
        case None => None
        case Some(v) => Some((ms[n], v))
  }

  /** There is no first parsed match exactly when no match parses ... */
  lemma {:induction false} FirstParsedNone(ms: seq<LabMatch>, number: string -> Option<real>)
    ensures FirstParsed(ms, number).None? <==> forall k :: 0 <= k < |ms| ==> number(ms[k].number).None?
  {
    if ms != [] {
      var n := |ms| - 1;
      FirstParsedNone(ms[..n], number);
      assert forall k :: 0 <= k < n ==> ms[..n][k] == ms[k];
    }
  }

  /** ... and otherwise it is the earliest match that parses. */
  lemma {:induction false} FirstParsedAt(ms: seq<LabMatch>, k: nat, number: string -> Option<real>)
    requires k < |ms| && number(ms[k].number).Some?
    requires forall j :: 0 <= j < k ==> number(ms[j].number).None?
    ensures FirstParsed(ms, number) == Some((ms[k], number(ms[k].number).value))
  {
    var n := |ms| - 1;
    var init := ms[..n];
    if k < n {
      assert init[k] == ms[k];
      assert forall j :: 0 <= j < k ==> init[j] == ms[j];
      FirstParsedAt(init, k, number);
    } else {
      FirstParsedNone(init, number);
      assert forall j :: 0 <= j < n ==> init[j] == ms[j];
    }
  }

  /** The rows after one known marker, given its first match that parses. */
  function AfterMarker(refs: Refs, labs: seq<RawLab>, marker: string, first: Option<(LabMatch, real)>, today: string): seq<RawLab> {
    if Canonical(marker) in MarkerSet(labs) then labs
    else match first
      case None => labs
      case Some(p) => labs + [KnownRow(refs, marker, p.0, p.1, today)]
  }

  /** Looking at one more match moves `AfterMarker` to the first parsed match
      of the longer list. */
  lemma AfterMarkerStep(refs: Refs, labs: seq<RawLab>, marker: string, first: Option<(LabMatch, real)>,
                        m: LabMatch, number: string -> Option<real>, today: string)
    ensures KnownStep(refs, AfterMarker(refs, labs, marker, first, today), marker, m, number, today) ==
      AfterMarker(refs, labs, marker,
        if first.Some? then first
        else match number(m.number) case None => None case Some(v) => Some((m, v)), today)
  {
    if Canonical(marker) !in MarkerSet(labs) && first.Some? {
      var row := KnownRow(refs, marker, first.value.0, first.value.1, today);
      MarkerSetSnoc(labs, row);
    }
  }

  /** One known marker adds at most one row: none when its canonical name is
      already taken, otherwise the row of its first match whose number
      parses, if any. */
  lemma {:induction false} KnownScanEffect(refs: Refs, labs: seq<RawLab>, marker: string, ms: seq<LabMatch>,
                                           number: string -> Option<real>, today: string)
    ensures KnownScan(refs, labs, marker, ms, number, today) == AfterMarker(refs, labs, marker, FirstParsed(ms, number), today)
  {
    if ms != [] {
      var n := |ms| - 1;
      KnownScanEffect(refs, labs, marker, ms[..n], number, today);
      AfterMarkerStep(refs, labs, marker, FirstParsed(ms[..n], number), ms[n], number, today);
    }
  }

  /** A known marker whose canonical name is free and one of whose matches
      parses adds exactly one row, from the first such match: the canonical
      name, the parsed value, the table's range, and the stripped unit of the
      match, or the table's default unit when that is blank. */
  lemma KnownScanAddsRow(refs: Refs, labs: seq<RawLab>, marker: string, ms: seq<LabMatch>,
                         number: string -> Option<real>, today: string, k: nat)
    requires Canonical(marker) !in MarkerSet(labs)
    requires k < |ms| && number(ms[k].number).Some?
    requires forall j :: 0 <= j < k ==> number(ms[j].number).None?
    ensures var out := KnownScan(refs, labs, marker, ms, number, today);
      var unit := Strip(ms[k].unit.GetOr(""));
      && |out| == |labs| + 1 && out[..|labs|] == labs
      && out[|labs|].marker == Canonical(marker) && out[|labs|].value == number(ms[k].number).value
      && out[|labs|].refLow == RefsOf(refs, marker).0 && out[|labs|].refHigh == RefsOf(refs, marker).1
      && out[|labs|].unit == (if unit == "" then RefsOf(refs, marker).2 else unit)
      && out[|labs|].fromFallback == None && out[|labs|].timestamp == today
  {
    KnownScanEffect(refs, labs, marker, ms, number, today);
    FirstParsedAt(ms, k, number);
    var out := KnownScan(refs, labs, marker, ms, number, today);
    assert out == labs + [KnownRow(refs, marker, ms[k], number(ms[k].number).value, today)];
    assert out[..|labs|] == labs;
  }

  /** A known marker whose canonical name is taken, or none of whose matches
      parses, adds nothing. */
  lemma KnownScanAddsNothing(refs: Refs, labs: seq<RawLab>, marker: string, ms: seq<LabMatch>,
                             number: string -> Option<real>, today: string)
    requires Canonical(marker) in MarkerSet(labs) || forall j :: 0 <= j < |ms| ==> number(ms[j].number).None?
    ensures KnownScan(refs, labs, marker, ms, number, today) == labs
  {
    KnownScanEffect(refs, labs, marker, ms, number, today);
    FirstParsedNone(ms, number);
  }

  /** No two rows carry the same name. */
  predicate DistinctMarkers(labs: seq<RawLab>) {
    forall i, j :: 0 <= i < j < |labs| ==> labs[i].marker != labs[j].marker
  }

  lemma DistinctSnoc(labs: seq<RawLab>, row: RawLab)
    requires DistinctMarkers(labs) && row.marker !in MarkerSet(labs)
    ensures DistinctMarkers(labs + [row])
  {
    forall i | 0 <= i < |labs| ensures labs[i].marker != row.marker {
      MarkerSetMembers(labs, row.marker);
    }
  }

  /** A row made from a known marker of `markers`: not from the fallback, the
      marker's canonical name and reference range, and a blank unit only when
      the default unit is blank as well (`KnownScanAddsRow` gives the unit). */
  predicate KnownShaped(refs: Refs, lab: RawLab, markers: seq<string>, today: string) {
    lab.fromFallback == None && lab.timestamp == today &&
    exists i :: 0 <= i < |markers| && lab.marker == Canonical(markers[i])
      && lab.refLow == RefsOf(refs, markers[i]).0 && lab.refHigh == RefsOf(refs, markers[i]).1
      && (lab.unit != [] || lab.unit == RefsOf(refs, markers[i]).2)
  }

  lemma KnownShapedWiden(refs: Refs, labs: seq<RawLab>, markers: seq<string>, n: nat, today: string)
    requires n <= |markers|
    requires forall k :: 0 <= k < |labs| ==> KnownShaped(refs, labs[k], markers[..n], today)
    ensures forall k :: 0 <= k < |labs| ==> KnownShaped(refs, labs[k], markers, today)
  {
    forall k | 0 <= k < |labs| ensures KnownShaped(refs, labs[k], markers, today) {
      var lab := labs[k];
      var i :| 0 <= i < n && lab.marker == Canonical(markers[..n][i])
        && lab.refLow == RefsOf(refs, markers[..n][i]).0 && lab.refHigh == RefsOf(refs, markers[..n][i]).1
        && (lab.unit != [] || lab.unit == RefsOf(refs, markers[..n][i]).2);
      assert markers[..n][i] == markers[i];
    }
  }

  lemma KnownRowShaped(refs: Refs, markers: seq<string>, i: nat, m: LabMatch, v: real, today: string)
    requires i < |markers|
    ensures KnownShaped(refs, KnownRow(refs, markers[i], m, v, today), markers, today)
  {
  }

  /** The known-marker phase gives distinct names, each row shaped by its
      marker's table entry. */
  lemma {:induction false} KnownPhaseShape(refs: Refs, markers: seq<string>, matchesFor: string -> seq<LabMatch>,
                                           number: string -> Option<real>, today: string)
    ensures var labs := KnownPhase(refs, [], markers, matchesFor, number, today);
      DistinctMarkers(labs) && forall k :: 0 <= k < |labs| ==> KnownShaped(refs, labs[k], markers, today)
  {
    if markers != [] {
      var n := |markers| - 1;
      var prev := KnownPhase(refs, [], markers[..n], matchesFor, number, today);
      KnownPhaseShape(refs, markers[..n], matchesFor, number, today);
      KnownShapedWiden(refs, prev, markers, n, today);
      var marker := markers[n];
      assert KnownPhase(refs, [], markers, matchesFor, number, today) == KnownScan(refs, prev, marker, matchesFor(marker), number, today);
      KnownScanEffect(refs, prev, marker, matchesFor(marker), number, today);
      AfterMarkerShape(refs, prev, markers, n, FirstParsed(matchesFor(marker), number), today);
    }
  }

  /** One more known marker keeps the rows distinct and shaped. */
  lemma AfterMarkerShape(refs: Refs, prev: seq<RawLab>, markers: seq<string>, n: nat, first: Option<(LabMatch, real)>, today: string)
    requires n < |markers|
    requires DistinctMarkers(prev) && forall k :: 0 <= k < |prev| ==> KnownShaped(refs, prev[k], markers, today)
    ensures var labs := AfterMarker(refs, prev, markers[n], first, today);
      DistinctMarkers(labs) && forall k :: 0 <= k < |labs| ==> KnownShaped(refs, labs[k], markers, today)
  {
    var labs := AfterMarker(refs, prev, markers[n], first, today);
    if labs != prev {
      var row := KnownRow(refs, markers[n], first.value.0, first.value.1, today);
      assert labs == prev + [row];
      DistinctSnoc(prev, row);
      KnownRowShaped(refs, markers, n, first.value.0, first.value.1, today);
      forall k | 0 <= k < |labs| ensures KnownShaped(refs, labs[k], markers, today) {
        if k < |prev| {
          assert labs[k] == prev[k];
        }
      }
    }
  }

  /** A row the fallback added: flagged as such, with the unknown reference
      range 0-0, a name of at least two characters that is no known marker
      name in any case. */
  predicate FallbackShaped(known: set<string>, lab: RawLab, today: string) {
    lab.fromFallback == Some(true) && lab.refLow == 0.0 && lab.refHigh == 0.0 && lab.timestamp == today
    && |lab.marker| >= 2 && Lower(lab.marker) !in known
  }

  /** The fallback keeps the earlier rows, adds only fallback-shaped rows and
      no name twice. */
  lemma {:induction false} FallbackScanEffect(known: set<string>, labs: seq<RawLab>, ms: seq<FallbackMatch>,
                                              number: string -> Option<real>, today: string)
    requires DistinctMarkers(labs)
    ensures FallbackExtends(known, labs, FallbackScan(known, labs, ms, number, today), today)
  {
    if ms != [] {
      var n := |ms| - 1;
      FallbackScanEffect(known, labs, ms[..n], number, today);
      var prev := FallbackScan(known, labs, ms[..n], number, today);
      assert FallbackScan(known, labs, ms, number, today) == FallbackStep(known, prev, ms[n], number, today);
      FallbackExtendsStep(known, labs, prev, ms[n], number, today);
    }
  }

  /** `res` keeps `labs` as its prefix, has distinct names and only
      fallback-shaped rows after the prefix. */
  predicate FallbackExtends(known: set<string>, labs: seq<RawLab>, res: seq<RawLab>, today: string) {
    |res| >= |labs| && res[..|labs|] == labs && DistinctMarkers(res)
    && forall k :: |labs| <= k < |res| ==> FallbackShaped(known, res[k], today)
  }

  lemma FallbackExtendsStep(known: set<string>, labs: seq<RawLab>, prev: seq<RawLab>, m: FallbackMatch,
                            number: string -> Option<real>, today: string)
    requires FallbackExtends(known, labs, prev, today)
    ensures FallbackExtends(known, labs, FallbackStep(known, prev, m, number, today), today)
  {
    if Admitted(known, prev, FallbackName(m)) && number(m.number).Some? {
      FallbackStepTakes(known, prev, m, number, today);
      ExtendsSnoc(known, labs, prev, RawLab(FallbackName(m), number(m.number).value, Strip(m.unit.GetOr("")), 0.0, 0.0, today, Some(true)), today);
    } else {
      FallbackStepSkips(known, prev, m, number, today);
    }
  }

  lemma ExtendsSnoc(known: set<string>, labs: seq<RawLab>, prev: seq<RawLab>, row: RawLab, today: string)
    requires FallbackExtends(known, labs, prev, today)
    requires row.marker !in MarkerSet(prev) && FallbackShaped(known, row, today)
    ensures FallbackExtends(known, labs, prev + [row], today)
  {
    var res := prev + [row];
    DistinctSnoc(prev, row);
    assert res[..|labs|] == prev[..|labs|];
    forall k | |labs| <= k < |res| ensures FallbackShaped(known, res[k], today) {
      if k < |prev| {
        assert res[k] == prev[k];
      }
    }
  }

  /** Both phases together over any marker order: distinct names, each row
      from a known marker or from the fallback, and no known row after a
      fallback row. */
  lemma PhasesShape(refs: Refs, known: set<string>, markers: seq<string>, matchesFor: string -> seq<LabMatch>, fallback: seq<FallbackMatch>,
                    number: string -> Option<real>, today: string)
    ensures var labs := FallbackScan(known, KnownPhase(refs, [], markers, matchesFor, number, today), fallback, number, today);
      && DistinctMarkers(labs)
      && (forall k :: 0 <= k < |labs| ==> KnownShaped(refs, labs[k], markers, today) || FallbackShaped(known, labs[k], today))
      && (forall i, j :: 0 <= i < j < |labs| && FallbackShaped(known, labs[i], today) ==> FallbackShaped(known, labs[j], today))
  {
    var rows := KnownPhase(refs, [], markers, matchesFor, number, today);
    KnownPhaseShape(refs, markers, matchesFor, number, today);
    FallbackScanEffect(known, rows, fallback, number, today);
    var labs := FallbackScan(known, rows, fallback, number, today);
    forall k | 0 <= k < |rows| ensures labs[k] == rows[k] {
      assert labs[..|rows|][k] == labs[k];
    }
  }

  /** A parsed case: a blank text is refused with "No text provided.", a
      text without labs with the hint; otherwise there is at least one row,
      names are distinct, and the known-marker rows come first, followed by
      the fallback rows. */
  lemma ParseCaseShape(text: string, matchesFor: string -> seq<LabMatch>, fallback: seq<FallbackMatch>,
                       phrases: seq<string>, float: string -> Option<real>, today: string)
    ensures var r := ParseCase(text, matchesFor, fallback, phrases, float, today);
      && (Strip(text) == [] ==> r == Err(NoText))
      && (r.Err? ==> r.error == NoText || r.error == NoLabs)
      && (r.Ok? ==>
        var labs := r.value.labs;
        && labs != [] && DistinctMarkers(labs)
        && (forall k :: 0 <= k < |labs| ==> KnownShaped(DefaultRefs, labs[k], MarkerOrder, today) || FallbackShaped(KnownNames(), labs[k], today))
        && (forall i, j :: 0 <= i < j < |labs| && FallbackShaped(KnownNames(), labs[i], today) ==> FallbackShaped(KnownNames(), labs[j], today)))
  {
    PhasesShape(DefaultRefs, KnownNames(), MarkerOrder, matchesFor, fallback, NumberParser(float), today);
  }

  /** Fallback rows are reported with an unknown reference status once
      normalised. */
  lemma FallbackRowsUnknownReference(known: set<string>, lab: RawLab, today: string, round2: real -> real)
    requires FallbackShaped(known, lab, today)
    ensures NormalizeLab(lab, round2).status == REFERENCE_UNKNOWN
  {
  }
}
