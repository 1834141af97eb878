/** The safety critic's patch-command language: one command per line,
    REMOVE_HYPOTHESIS, LOWER_CONFIDENCE or REMOVE_ACTION, and the gate that
    skips the critic when no model is available. */
module Critic {
  import opened Wrappers
  import opened Strings
  import opened LabNormalizer
  import opened EvidenceBuilder
  import Seqs

  datatype CriticOp =
    | RemoveHypothesis(id: string)
    | LowerConfidence(id: string, value: real)
    | RemoveAction(scope: string, index: int)

  /** The op one line's tokens yield, if any: the command word is matched
      case-insensitively, hypothesis ids are upper-cased, tokens beyond the ones
      a command needs are ignored, and an unparsable number drops the line. */
  function ParseParts(parts: seq<string>, parseFloat: string -> Option<real>): Option<CriticOp> {
    if |parts| < 2 then None
    else
      var cmd := Upper(parts[0]);
      if cmd == "REMOVE_HYPOTHESIS" then Some(RemoveHypothesis(Upper(parts[1])))
      else if cmd == "LOWER_CONFIDENCE" && |parts| >= 3 then
        match parseFloat(parts[2])
        case None => None
        case Some(v) => Some(LowerConfidence(Upper(parts[1]), v))
      else if cmd == "REMOVE_ACTION" && |parts| >= 3 then
        match ParseInt(parts[2])
        case None => None
        case Some(i) => Some(RemoveAction(parts[1], i))
      else None
  }

  /** The op one line yields: its blank-separated tokens, parsed. */
  function ParseLine(raw: string, parseFloat: string -> Option<real>): Option<CriticOp> {
    ParseParts(Split(Strip(raw)), parseFloat)
  }

  /** `ParseLine` as a function value. */
  function LineParser(parseFloat: string -> Option<real>): string -> Option<CriticOp> {
    raw => ParseLine(raw, parseFloat)
  }

  /** The ops a line parser finds in a list of lines, in line order. */
  function Ops(lines: seq<string>, parse: string -> Option<CriticOp>): seq<CriticOp> {
    if lines == [] then []
    else
      Ops(lines[..|lines| - 1], parse)
      + match parse(lines[|lines| - 1]) { case None => [] case Some(op) => [op] }
  }

  /** The loop over the lines, appending each line's op. */
  method ParseLines(lines: seq<string>, parseFloat: string -> Option<real>) returns (ops: seq<CriticOp>)
    ensures ops == Ops(lines, LineParser(parseFloat))
  {
    ops := [];
    for k := 0 to |lines|
      invariant ops == Ops(lines[..k], LineParser(parseFloat))
    {
      assert lines[..k + 1][..k] == lines[..k];
      var op := ParseLine(lines[k], parseFloat);
      assert LineParser(parseFloat)(lines[k]) == op;
      if op.Some? {
        assert Ops(lines[..k + 1], LineParser(parseFloat)) == ops + [op.value];
        ops := ops + [op.value];
      } else {
        assert Ops(lines[..k + 1], LineParser(parseFloat)) == ops + [];
        assert ops + [] == ops;
      }
    }
    assert lines[..|lines|] == lines;
  }

  /** `_parse_critic_lines`: the ops of the text's lines; none for empty text. */
  method ParseCriticLines(text: string, parseFloat: string -> Option<real>) returns (ops: seq<CriticOp>)
    ensures ops == Ops(SplitLines(text), LineParser(parseFloat))
  {
    if text == "" {
      return [];
    }
    ops := ParseLines(SplitLines(text), parseFloat);
  }

  // ---------------------------------------------------------- properties

  /** Ops follow line order: the ops of two blocks of lines are the ops of the
      first block followed by those of the second. */
  lemma {:induction false} OpsAppend(a: seq<string>, b: seq<string>, parse: string -> Option<CriticOp>)
    ensures Ops(a + b, parse) == Ops(a, parse) + Ops(b, parse)
  {
    if b == [] {
      assert a + b == a;
    } else {
      var init := b[..|b| - 1];
      var tail := match parse(b[|b| - 1]) { case None => [] case Some(op) => [op] };
      assert (a + b)[..|a + b| - 1] == a + init;
      assert (a + b)[|a + b| - 1] == b[|b| - 1];
      assert Ops(a + b, parse) == Ops(a + init, parse) + tail;
      assert Ops(b, parse) == Ops(init, parse) + tail;
      OpsAppend(a, init, parse);
      Seqs.AppendSeq(Ops(a, parse), Ops(init, parse), tail);
    }
  }

  /** Every line yields at most one op. */
  lemma {:induction false} AtMostOneOpPerLine(lines: seq<string>, parse: string -> Option<CriticOp>)
    ensures |Ops(lines, parse)| <= |lines|
  {
    if lines != [] {
      AtMostOneOpPerLine(lines[..|lines| - 1], parse);
    }
  }

  /** Hypothesis ids come out upper-case, and blank or one-token lines yield nothing. */
  lemma ParsedIdsAreUpperCase(raw: string, parseFloat: string -> Option<real>)
    ensures |Split(Strip(raw))| < 2 ==> ParseLine(raw, parseFloat) == None
    ensures ParseLine(raw, parseFloat).Some? && !ParseLine(raw, parseFloat).value.RemoveAction? ==>
      Upper(ParseLine(raw, parseFloat).value.id) == ParseLine(raw, parseFloat).value.id
  {
    var parts := Split(Strip(raw));
    if |parts| >= 2 {
      UpperIdempotent(parts[1]);
    }
  }

  // ------------------------------------------------- rendering, the inverse

  /** A token the grammar can carry: a non-blank run without lower-case letters
      where it is a hypothesis id. */
  predicate IsIdWord(w: string) {
    IsWord(w) && Upper(w) == w
  }

  /** An op that has a textual form: words for ids and scope, and a number
      whose rendering reads back as itself. */
  predicate Renderable(op: CriticOp, showFloat: real -> string, parseFloat: string -> Option<real>) {
    match op
    case RemoveHypothesis(id) => IsIdWord(id)
    case LowerConfidence(id, v) => IsIdWord(id) && IsWord(showFloat(v)) && parseFloat(showFloat(v)) == Some(v)
    case RemoveAction(scope, _) => IsWord(scope)
  }

  /** Two pieces of a line with one blank between them. */
  function Spaced(a: string, b: string): string {
    a + " " + b
  }

  /** The line the critic is asked to print for an op. */
  function Render(op: CriticOp, showFloat: real -> string): string {
    match op
    case RemoveHypothesis(id) => Spaced("REMOVE_HYPOTHESIS", id)
    case LowerConfidence(id, v) => Spaced("LOWER_CONFIDENCE", Spaced(id, showFloat(v)))
    case RemoveAction(scope, i) => Spaced("REMOVE_ACTION", Spaced(scope, IntToString(i)))
  }

  /** The critic's output for a list of ops: one line each. */
  function RenderAll(ops: seq<CriticOp>, showFloat: real -> string): string {
    if ops == [] then ""
    else if |ops| == 1 then Render(ops[0], showFloat)
    else Render(ops[0], showFloat) + "\n" + RenderAll(ops[1..], showFloat)
  }

  /** The words of the three commands. */
  lemma CommandWords()
    ensures IsWord("REMOVE_HYPOTHESIS") && IsWord("LOWER_CONFIDENCE") && IsWord("REMOVE_ACTION")
  {
    CapitalsWord("REMOVE_HYPOTHESIS");
    CapitalsWord("LOWER_CONFIDENCE");
    CapitalsWord("REMOVE_ACTION");
  }

  lemma SpacedEnds(a: string, b: string)
    requires a != [] && b != []
    ensures Spaced(a, b) != [] && Spaced(a, b)[0] == a[0] && Spaced(a, b)[|Spaced(a, b)| - 1] == b[|b| - 1]
  {
  }

  /** Joining two words by a blank adds no line break. */
  lemma SpacedIsOneLine(a: string, b: string)
    requires IsWord(a)
    requires forall i :: 0 <= i < |b| ==> !IsLineBreak(b[i])
    ensures forall i :: 0 <= i < |Spaced(a, b)| ==> !IsLineBreak(Spaced(a, b)[i])
  {
    WordHasNoLineBreak(a);
    var s := Spaced(a, b);
    forall i | 0 <= i < |s| ensures !IsLineBreak(s[i]) {
      if i < |a| { assert s[i] == a[i]; }
      else if i > |a| { assert s[i] == b[i - |a| - 1]; }
    }
  }

  /** A rendered line is a non-blank line without line breaks. */
  lemma RenderIsOneLine(op: CriticOp, showFloat: real -> string, parseFloat: string -> Option<real>)
    requires Renderable(op, showFloat, parseFloat)
    ensures Render(op, showFloat) != []
    ensures forall i :: 0 <= i < |Render(op, showFloat)| ==> !IsLineBreak(Render(op, showFloat)[i])
  {
    CommandWords();
    match op
    case RemoveHypothesis(id) =>
      WordHasNoLineBreak(id);
      SpacedIsOneLine("REMOVE_HYPOTHESIS", id);
    case LowerConfidence(id, v) =>
      WordHasNoLineBreak(showFloat(v));
      SpacedIsOneLine(id, showFloat(v));
      SpacedIsOneLine("LOWER_CONFIDENCE", Spaced(id, showFloat(v)));
    case RemoveAction(scope, i) =>
      ParseIntOfIntToString(i);
      WordHasNoLineBreak(IntToString(i));
      SpacedIsOneLine(scope, IntToString(i));
      SpacedIsOneLine("REMOVE_ACTION", Spaced(scope, IntToString(i)));
  }

  lemma SplitSpaced(a: string, b: string, bParts: seq<string>)
    requires IsWord(a) && Split(b) == bParts
    ensures Split(Spaced(a, b)) == [a] + bParts
  {
    SplitWordThenSpace(a, b);
  }

  /** A command word followed by a blank and a rest that does not end in a
      blank: the line's tokens are the word and the rest's tokens. */
  lemma ParseSpaced(cmd: string, rest: string, restParts: seq<string>, parseFloat: string -> Option<real>)
    requires IsWord(cmd)
    requires rest != [] && !IsSpace(rest[|rest| - 1]) && Split(rest) == restParts
    ensures ParseLine(Spaced(cmd, rest), parseFloat) == ParseParts([cmd] + restParts, parseFloat)
  {
    SpacedEnds(cmd, rest);
    StripNonBlankEnds(Spaced(cmd, rest));
    SplitSpaced(cmd, rest, restParts);
  }

  /** Two words joined by a blank: a rest that splits back into the two. */
  lemma TwoWords(a: string, b: string)
    requires IsWord(a) && IsWord(b)
    ensures var r := Spaced(a, b); r != [] && !IsSpace(r[|r| - 1]) && Split(r) == [a, b]
  {
    SplitWord(b);
    SplitSpaced(a, b, [b]);
    SpacedEnds(a, b);
    assert [a] + [b] == [a, b];
  }

  /** The tokens of each command, parsed: the command word in any case,
      then its arguments. */
  lemma RemoveHypothesisParts(parts: seq<string>, parseFloat: string -> Option<real>)
    requires |parts| >= 2 && Upper(parts[0]) == "REMOVE_HYPOTHESIS"
    ensures ParseParts(parts, parseFloat) == Some(RemoveHypothesis(Upper(parts[1])))
  {
  }

  lemma LowerConfidenceParts(parts: seq<string>, v: real, parseFloat: string -> Option<real>)
    requires |parts| >= 3 && Upper(parts[0]) == "LOWER_CONFIDENCE" && parseFloat(parts[2]) == Some(v)
    ensures ParseParts(parts, parseFloat) == Some(LowerConfidence(Upper(parts[1]), v))
  {
  }

  lemma RemoveActionParts(parts: seq<string>, i: int, parseFloat: string -> Option<real>)
    requires |parts| >= 3 && Upper(parts[0]) == "REMOVE_ACTION" && ParseInt(parts[2]) == Some(i)
    ensures ParseParts(parts, parseFloat) == Some(RemoveAction(parts[1], i))
  {
  }

  lemma ParseRemoveHypothesis(cmd: string, id: string, parseFloat: string -> Option<real>)
    requires IsWord(cmd) && Upper(cmd) == "REMOVE_HYPOTHESIS" && IsIdWord(id)
    ensures ParseLine(Spaced(cmd, id), parseFloat) == Some(RemoveHypothesis(id))
  {
    SplitWord(id);
    ParseSpaced(cmd, id, [id], parseFloat);
    RemoveHypothesisParts([cmd] + [id], parseFloat);
  }

  lemma ParseLowerConfidence(cmd: string, id: string, num: string, v: real, parseFloat: string -> Option<real>)
    requires IsWord(cmd) && Upper(cmd) == "LOWER_CONFIDENCE"
    requires IsIdWord(id) && IsWord(num) && parseFloat(num) == Some(v)
    ensures ParseLine(Spaced(cmd, Spaced(id, num)), parseFloat) == Some(LowerConfidence(id, v))
  {
    TwoWords(id, num);
    ParseSpaced(cmd, Spaced(id, num), [id, num], parseFloat);
    LowerConfidenceParts([cmd] + [id, num], v, parseFloat);
  }

  lemma ParseRemoveAction(cmd: string, scope: string, i: int, parseFloat: string -> Option<real>)
    requires IsWord(cmd) && Upper(cmd) == "REMOVE_ACTION" && IsWord(scope)
    ensures ParseLine(Spaced(cmd, Spaced(scope, IntToString(i))), parseFloat) == Some(RemoveAction(scope, i))
  {
    var num := IntToString(i);
    ParseIntOfIntToString(i);
    TwoWords(scope, num);
    ParseSpaced(cmd, Spaced(scope, num), [scope, num], parseFloat);
    RemoveActionParts([cmd] + [scope, num], i, parseFloat);
  }

  /** Parsing a rendered line gives back the op. */
  lemma ParseRender(op: CriticOp, showFloat: real -> string, parseFloat: string -> Option<real>)
    requires Renderable(op, showFloat, parseFloat)
    ensures ParseLine(Render(op, showFloat), parseFloat) == Some(op)
  {
    match op
    case RemoveHypothesis(id) =>
      CapitalsWord("REMOVE_HYPOTHESIS");
      ParseRemoveHypothesis("REMOVE_HYPOTHESIS", id, parseFloat);
    case LowerConfidence(id, v) =>
      CapitalsWord("LOWER_CONFIDENCE");
      ParseLowerConfidence("LOWER_CONFIDENCE", id, showFloat(v), v, parseFloat);
    case RemoveAction(scope, i) =>
      CapitalsWord("REMOVE_ACTION");
      ParseRemoveAction("REMOVE_ACTION", scope, i, parseFloat);
  }

  /** The command language round-trips: printing ops one per line and parsing
      the text gives back exactly those ops, in order. */
  lemma {:induction false} ParseRenderAll(ops: seq<CriticOp>, showFloat: real -> string, parseFloat: string -> Option<real>)
    requires forall k :: 0 <= k < |ops| ==> Renderable(ops[k], showFloat, parseFloat)
    ensures Ops(SplitLines(RenderAll(ops, showFloat)), LineParser(parseFloat)) == ops
  {
    var parse := LineParser(parseFloat);
    if ops != [] {
      var first := Render(ops[0], showFloat);
      RenderedLine(ops[0], showFloat, parseFloat);
      if |ops| == 1 {
        SplitLinesOne(first);
      } else {
        var tail := RenderAll(ops[1..], showFloat);
        var rest := SplitLines(tail);
        assert RenderAll(ops, showFloat) == first + "\n" + tail;
        SplitLinesCons(first, tail);
        ParseRenderAll(ops[1..], showFloat, parseFloat);
        OpsAppend([first], rest, parse);
        assert Ops([first] + rest, parse) == [ops[0]] + ops[1..];
        assert [ops[0]] + ops[1..] == ops;
      }
    }
  }

  /** One rendered op is a single non-empty line that parses back to it. */
  lemma RenderedLine(op: CriticOp, showFloat: real -> string, parseFloat: string -> Option<real>)
    requires Renderable(op, showFloat, parseFloat)
    ensures var line := Render(op, showFloat);
      line != [] && (forall i :: 0 <= i < |line| ==> !IsLineBreak(line[i]))
      && Ops([line], LineParser(parseFloat)) == [op]
  {
    var line := Render(op, showFloat);
    RenderIsOneLine(op, showFloat, parseFloat);
    ParseRender(op, showFloat, parseFloat);
    assert LineParser(parseFloat)(line) == Some(op);
    OneLine(line, op, LineParser(parseFloat));
  }

  lemma OneLine(line: string, op: CriticOp, parse: string -> Option<CriticOp>)
    requires parse(line) == Some(op)
    ensures Ops([line], parse) == [op]
  {
    assert [line][..0] == [];
  }

  // ------------------------------------------------------- the critic call

  /** One evidence item in the critic's prompt: `marker(status)->pattern`. */
  function Describe(e: EvidenceItem): string {
    e.marker + "(" + StatusName(e.markerStatus) + ")->" + e.patternId
  }

  function Descriptions(items: seq<EvidenceItem>): (ds: seq<string>)
    ensures |ds| == |items|
  {
    seq(|items|, i requires 0 <= i < |items| => Describe(items[i]))
  }

  /** `_summarize_evidence`: the first six discriminators, or "None". */
  function SummarizeEvidence(top: seq<EvidenceItem>): (summary: string)
    ensures top == [] <==> summary == "None"
  {
    var shown := top[..if |top| < 6 then |top| else 6];
    if shown == [] then "None"
    else
      var ds := Descriptions(shown);
      assert |ds[0]| >= 5;
      assert |Join(ds, "; ")| >= |ds[0]|;
      Join(ds, "; ")
  }

  /** Items after the sixth never reach the prompt. */
  lemma OnlySixItemsShown(a: seq<EvidenceItem>, b: seq<EvidenceItem>)
    requires |a| >= 6 && |b| >= 6 && a[..6] == b[..6]
    ensures SummarizeEvidence(a) == SummarizeEvidence(b)
  {
  }

  datatype CriticReport = CriticReport(ops: seq<CriticOp>, rawOutput: string, modelUsed: bool)

  /** `run_critic`: no ops and no output without a usable model; otherwise the
      ops parsed from the model's stripped reply, where a failed call (`None`)
      counts as an empty reply. */
  method RunCritic(liteMode: bool, modelLoaded: bool, reply: Option<string>, parseFloat: string -> Option<real>)
    returns (r: CriticReport)
    ensures liteMode || !modelLoaded ==> r == CriticReport([], "", false)
    ensures !liteMode && modelLoaded ==>
      && r.modelUsed
      && r.rawOutput == Strip(reply.GetOr(""))
      && r.ops == Ops(SplitLines(r.rawOutput), LineParser(parseFloat))
  {
    if liteMode || !modelLoaded {
      return CriticReport([], "", false);
    }
    var raw := Strip(reply.GetOr(""));
    var ops := ParseCriticLines(raw, parseFloat);
    r := CriticReport(ops, raw, true);
  }
}
