/** The short patient overview written after the guardrails: a rule-built
    sentence list, or the model's text when the model is enabled and answers
    with more than ten characters. */
module CaseImpression {
  import opened Wrappers
  import opened Strings
  import opened Guardrails

  const NothingToReport: string := "Case reviewed; no hypotheses above threshold."
  const SafetyNote: string := "Recommendations were adjusted for safety."

  /** The sentence about the first hypothesis; a hypothesis without a name
      is called "Unknown". */
  function TopSentence(name: Option<string>): string {
    "Top consideration: " + name.GetOr("Unknown") + "."
  }

  function MarkerSentence(abnormal: seq<string>): string {
    "Notable abnormal markers: " + Join(abnormal, ", ") + "."
  }

  /** The sentences of the lite impression, each present only when its
      source is: the first hypothesis (its name, if any), the abnormal
      markers, and a failed guardrail report. */
  function ImpressionParts(abnormal: seq<string>, names: seq<Option<string>>, status: Verdict): seq<string> {
    (if names != [] then [TopSentence(names[0])] else [])
    + (if abnormal != [] then [MarkerSentence(abnormal)] else [])
    + (if status == Fail then [SafetyNote] else [])
  }

  /** Joining keeps the first part at the front and the last at the end. */
  lemma {:induction false} JoinEnds(parts: seq<string>, sep: string)
    requires parts != []
    ensures var j := Join(parts, sep);
      |j| >= |parts[0]| && j[..|parts[0]|] == parts[0] &&
      |j| >= |parts[|parts| - 1]| && j[|j| - |parts[|parts| - 1]|..] == parts[|parts| - 1]
  {
    if |parts| > 1 {
      var rest := parts[1..];
      JoinEnds(rest, sep);
      var j := Join(parts, sep);
      assert j == parts[0] + sep + Join(rest, sep);
      assert rest[|rest| - 1] == parts[|parts| - 1];
    }
  }

  lemma JoinTwo(a: string, b: string, sep: string)
    ensures Join([a, b], sep) == a + sep + b
  {
    assert [a, b][1..] == [b];
  }

  lemma JoinThree(a: string, b: string, c: string, sep: string)
    ensures Join([a, b, c], sep) == a + sep + (b + sep + c)
  {
    assert [a, b, c][1..] == [b, c];
    JoinTwo(b, c, sep);
  }

  /** `_lite_impression`: the sentences joined by single blanks, or the
      fixed remark when there is nothing to say. Never empty. */
  function LiteImpression(abnormal: seq<string>, names: seq<Option<string>>, status: Verdict): (r: string)
    ensures r != []
  {
    var parts := ImpressionParts(abnormal, names, status);
    if parts == [] then NothingToReport
    else
      JoinEnds(parts, " ");
      assert parts[0] != [];
      Join(parts, " ")
  }

  /** With a hypothesis, the impression opens on its sentence. */
  lemma ImpressionOpensWithTopHypothesis(abnormal: seq<string>, names: seq<Option<string>>, status: Verdict)
    requires names != []
    ensures var r := LiteImpression(abnormal, names, status);
      |r| >= |TopSentence(names[0])| && r[..|TopSentence(names[0])|] == TopSentence(names[0])
  {
    JoinEnds(ImpressionParts(abnormal, names, status), " ");
  }

  /** A failed report always ends the impression on the safety note. */
  lemma ImpressionClosesWithSafetyNote(abnormal: seq<string>, names: seq<Option<string>>)
    ensures var r := LiteImpression(abnormal, names, Fail);
      |r| >= |SafetyNote| && r[|r| - |SafetyNote|..] == SafetyNote
  {
    var parts := ImpressionParts(abnormal, names, Fail);
    assert parts[|parts| - 1] == SafetyNote;
    JoinEnds(parts, " ");
  }

  /** With no hypothesis, no abnormal marker and no failure the fixed remark
      is given; otherwise the sentences come in the order hypothesis,
      markers, safety note, separated by single blanks. */
  lemma ImpressionOrder(abnormal: seq<string>, names: seq<Option<string>>, status: Verdict)
    ensures names == [] && abnormal == [] && status != Fail ==> LiteImpression(abnormal, names, status) == NothingToReport
    ensures names != [] && abnormal != [] && status == Fail ==>
      LiteImpression(abnormal, names, status) == TopSentence(names[0]) + " " + (MarkerSentence(abnormal) + " " + SafetyNote)
    ensures names != [] && abnormal != [] && status != Fail ==>
      LiteImpression(abnormal, names, status) == TopSentence(names[0]) + " " + MarkerSentence(abnormal)
  {
    if names != [] && abnormal != [] {
      var top, markers := TopSentence(names[0]), MarkerSentence(abnormal);
      if status == Fail {
        assert ImpressionParts(abnormal, names, status) == [top, markers, SafetyNote];
        JoinThree(top, markers, SafetyNote, " ");
      } else {
        assert ImpressionParts(abnormal, names, status) == [top, markers];
        JoinTwo(top, markers, " ");
      }
    }
  }

  /** `os.getenv("USE_CASE_IMPRESSION_MODEL", "1")` is on unless it reads "0" or "false". */
  predicate ImpressionModelEnabled(env: Option<string>) {
    var v := Lower(Strip(env.GetOr("1")));
    v != "0" && v != "false"
  }

  /** `generate_case_impression`. The model's side is given: whether the
      prompt file exists and the text the model answered with (None when the
      call failed). Lite mode, an unloaded model or the setting off always
      gives the lite impression; the model's text is used only when, stripped,
      it is longer than ten characters. */
  function GenerateImpression(liteMode: bool, modelLoaded: bool, env: Option<string>,
                              promptExists: bool, reply: Option<string>,
                              abnormal: seq<string>, names: seq<Option<string>>, status: Verdict): (r: string)
    ensures r != []
    ensures liteMode || !modelLoaded || !ImpressionModelEnabled(env) ==> r == LiteImpression(abnormal, names, status)
    ensures !promptExists ==> r == LiteImpression(abnormal, names, status)
    ensures r == LiteImpression(abnormal, names, status) || (reply.Some? && r == Strip(reply.value) && |r| > 10)
    ensures !liteMode && modelLoaded && ImpressionModelEnabled(env) && promptExists && reply.Some? && |Strip(reply.value)| > 10 ==>
      r == Strip(reply.value)
  {
    if liteMode || !modelLoaded || !ImpressionModelEnabled(env) || !promptExists then
      LiteImpression(abnormal, names, status)
    else if reply.Some? && |Strip(reply.value)| > 10 then
      Strip(reply.value)
    else
      LiteImpression(abnormal, names, status)
  }
}
