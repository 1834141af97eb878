/** The pipeline's remove-patch loop: when the guardrail report fails, each
    "remove" patch's path is walked down the reasoner output and the element
    it names is deleted, in the order the patches were emitted. A Python
    exception (a missing key, an index out of range) aborts the run and is
    modelled as an `Err` carrying the exception's kind. */
module PatchApply {
  import opened Wrappers
  import opened Strings
  import opened Guardrails
  import opened Reasoner

  /** `path.strip('/').split('/')`. */
  function PathParts(path: string): (parts: seq<string>)
    ensures |parts| >= 1
  {
    SplitOn(StripChar(path, '/'), '/')
  }

  /** One step of the walk: `obj[int(part)]` when `part.isdigit()`, otherwise
      `obj[part]`. */
  function Step(obj: Json, part: string): Result<Json> {
    if IsDigitString(part) then
      var n := DigitsValue(part);
      match obj
      case JList(items) => if n < |items| then Ok(items[n]) else Err("IndexError")
      case JObj(_) => Err("KeyError")
      case JStr(s) => if n < |s| then Ok(JStr([s[n]])) else Err("IndexError")
      case _ => Err("TypeError")
    else
      match obj
      case JObj(fields) => if part in fields then Ok(fields[part]) else Err("KeyError")
      case _ => Err("TypeError")
  }

  /** The element the walk along `parts` reaches. */
  function Descend(obj: Json, parts: seq<string>): Result<Json>
    decreases |parts|
  {
    if parts == [] then Ok(obj)
    else
      match Step(obj, parts[0])
      case Err(e) => Err(e)
      case Ok(child) => Descend(child, parts[1..])
  }

  /** The loop `for part in path_parts[:-1]: obj = ...`. */
  method Walk(obj: Json, parts: seq<string>) returns (r: Result<Json>)
    ensures r == Descend(obj, parts)
  {
    var cur := obj;
    for k := 0 to |parts|
      invariant Descend(obj, parts) == Descend(cur, parts[k..])
    {
      assert parts[k..][1..] == parts[k + 1..];
      var next := Step(cur, parts[k]);
      if next.Err? {
        return Err(next.error);
      }
      cur := next.value;
    }
    return Ok(cur);
  }

  /** `index = int(last); del obj[index]`: Python's negative indices count
      from the end; only a list supports deletion by an integer. */
  function DeleteIndex(obj: Json, last: string): Result<Json> {
    match ParseInt(last)
    case None => Err("ValueError")
    case Some(i) =>
      match obj
      case JList(items) =>
        if -|items| <= i < |items| then
          var k := if i < 0 then i + |items| else i;
          Ok(JList(items[..k] + items[k + 1..]))
        else Err("IndexError")
      case JObj(_) => Err("KeyError")
      case _ => Err("TypeError")
  }

  /** `obj` with the element the step `part` reaches replaced by `child`. A
      string's characters cannot be replaced; no deletion ever succeeds below
      a string (`StringsRejectRemoval`), so that case never arises. */
  function Replace(obj: Json, part: string, child: Json): Json
    requires Step(obj, part).Ok?
  {
    match obj
    case JList(items) => JList(items[DigitsValue(part) := child])
    case JObj(fields) => JObj(fields[part := child])
    case _ => obj
  }

  /** `obj` with the element reached along `parts` replaced by `v`: the effect
      of mutating that element in place. */
  function Put(obj: Json, parts: seq<string>, v: Json): Json
    requires Descend(obj, parts).Ok?
    decreases |parts|
  {
    if parts == [] then v
    else Replace(obj, parts[0], Put(Step(obj, parts[0]).value, parts[1..], v))
  }

  /** One "remove" patch along already split path parts. */
  function RemoveAt(obj: Json, parts: seq<string>): Result<Json>
    requires |parts| >= 1
  {
    var init := parts[..|parts| - 1];
    match Descend(obj, init)
    case Err(e) => Err(e)
    case Ok(container) =>
      match DeleteIndex(container, parts[|parts| - 1])
      case Err(e) => Err(e)
      case Ok(shorter) => Ok(Put(obj, init, shorter))
  }

  /** One patch: only "remove" does anything. */
  function ApplyOne(obj: Json, patch: Patch): Result<Json> {
    if patch.op == "remove" then RemoveAt(obj, PathParts(patch.path)) else Ok(obj)
  }

  /** The patches applied one after the other, the first failure aborting. */
  function ApplyAll(obj: Json, patches: seq<Patch>): Result<Json>
    decreases |patches|
  {
    if patches == [] then Ok(obj)
    else
      match ApplyOne(obj, patches[0])
      case Err(e) => Err(e)
      case Ok(next) => ApplyAll(next, patches[1..])
  }

  /** The patch step of the pipeline: nothing happens unless the report
      failed; then every patch is applied in order, with no adjustment of
      later indices after a deletion. */
  method ApplyPatches(report: GuardrailReport, output: Json) returns (r: Result<Json>)
    ensures report.status == Pass ==> r == Ok(output)
    ensures report.status == Fail ==> r == ApplyAll(output, report.patches)
  {
    if report.status != Fail {
      return Ok(output);
    }
    var patches := report.patches;
    var cur := output;
    for k := 0 to |patches|
      invariant ApplyAll(output, patches) == ApplyAll(cur, patches[k..])
    {
      assert patches[k..][1..] == patches[k + 1..];
      var patch := patches[k];
      if patch.op == "remove" {
        var parts := PathParts(patch.path);
        var init := parts[..|parts| - 1];
        var container := Walk(cur, init);
        if container.Err? {
          return Err(container.error);
        }
        var shorter := DeleteIndex(container.value, parts[|parts| - 1]);
        if shorter.Err? {
          return Err(shorter.error);
        }
        cur := Put(cur, init, shorter.value);
      }
    }
    return Ok(cur);
  }

  // ------------------------------------------------------------ properties

  /** A key and a segment without separators split back into the two. */
  lemma SplitPair(key: string, seg: string)
    requires forall k :: 0 <= k < |key| ==> key[k] != '/'
    requires '/' !in seg
    ensures SplitOn(key + ['/'] + seg, '/') == [key, seg]
  {
    SplitOnCons(key, seg, '/');
    SplitOnPiece(seg, '/');
  }

  /** The paths the guardrails emit split into their segments. */
  lemma ActionPathParts(i: nat)
    ensures PathParts(ActionPath(i)) == ["patient_actions", NatToString(i)]
  {
    var key, num := "patient_actions", NatToString(i);
    assert "/patient_actions/" == ['/'] + key + ['/'];
    assert ActionPath(i) == ['/'] + (key + ['/'] + num);
    NatToStringShape(i, '/');
    StripOneLeading(key + ['/'] + num, '/');
    SplitPair(key, num);
  }

  /** Four separator-free segments joined by separators split back. */
  lemma SplitFour(a: string, b: string, c: string, d: string)
    requires forall k :: 0 <= k < |a| ==> a[k] != '/'
    requires forall k :: 0 <= k < |c| ==> c[k] != '/'
    requires '/' !in b && '/' !in d
    ensures SplitOn(a + ['/'] + (b + ['/'] + (c + ['/'] + d)), '/') == [a, b, c, d]
  {
    SplitPair(c, d);
    SplitOnCons(b, c + ['/'] + d, '/');
    SplitOnCons(a, b + ['/'] + (c + ['/'] + d), '/');
  }

  /** `/a/b/c/d` with separator-free segments and `b`, `d` non-empty and
      starting and ending with no separator yields the four segments. */
  lemma FourSegmentPath(a: string, b: string, c: string, d: string)
    requires forall k :: 0 <= k < |a| ==> a[k] != '/'
    requires forall k :: 0 <= k < |c| ==> c[k] != '/'
    requires a != [] && b != [] && d != []
    requires '/' !in b && '/' !in d
    ensures PathParts(['/'] + a + ['/'] + b + (['/'] + c + ['/']) + d) == [a, b, c, d]
  {
    var body := a + ['/'] + (b + ['/'] + (c + ['/'] + d));
    assert ['/'] + a + ['/'] + b + (['/'] + c + ['/']) + d == ['/'] + body;
    assert body[0] == a[0] && body[|body| - 1] == d[|d| - 1];
    StripOneLeading(body, '/');
    SplitFour(a, b, c, d);
  }

  lemma EvidencePathParts(h: nat, e: nat)
    ensures PathParts(EvidencePath(h, e)) == ["hypotheses", NatToString(h), "evidence", NatToString(e)]
  {
    var hk, ek := "hypotheses", "evidence";
    assert "/hypotheses/" == ['/'] + hk + ['/'];
    assert "/evidence/" == ['/'] + ek + ['/'];
    NatToStringShape(h, '/');
    NatToStringShape(e, '/');
    FourSegmentPath(hk, NatToString(h), ek, NatToString(e));
  }

  /** Nothing below a string can be deleted: the walk from a string reaches
      only strings, and `del` on a string fails. */
  lemma {:induction false} DescendFromString(s: string, parts: seq<string>)
    ensures Descend(JStr(s), parts).Err? || Descend(JStr(s), parts).value.JStr?
    decreases |parts|
  {
    if parts != [] {
      match Step(JStr(s), parts[0])
      case Err(_) =>
      case Ok(child) => DescendFromString(child.s, parts[1..]);
    }
  }

  lemma StringsRejectRemoval(s: string, parts: seq<string>)
    requires |parts| >= 1
    ensures RemoveAt(JStr(s), parts).Err?
  {
    DescendFromString(s, parts[..|parts| - 1]);
  }

  /** A remove patch `/key/num` on an object whose `key` holds a list. */
  lemma RemoveUnderKey(fields: map<string, Json>, key: string, items: seq<Json>, num: string, i: nat)
    requires !IsDigitString(key)
    requires key in fields && fields[key] == JList(items)
    requires ParseInt(num) == Some(i)
    ensures RemoveAt(JObj(fields), [key, num]) ==
      if i < |items| then Ok(JObj(fields[key := JList(items[..i] + items[i + 1..])])) else Err("IndexError")
  {
    assert [key, num][..1] == [key];
    assert Descend(JObj(fields), [key]) == Ok(JList(items)) by {
      assert Descend(JList(items), [key][1..]) == Ok(JList(items));
    }
    assert [key, num][|[key, num]| - 1] == num;
    if i < |items| {
      var v := JList(items[..i] + items[i + 1..]);
      assert DeleteIndex(JList(items), num) == Ok(v);
      assert Put(JObj(fields), [key], v) == JObj(fields[key := v]) by {
        assert Put(JList(items), [key][1..], v) == v;
      }
    } else {
      assert DeleteIndex(JList(items), num) == Err("IndexError");
    }
  }

  /** Removing `/patient_actions/i` deletes exactly the action at `i`, or
      fails with IndexError when there is none. */
  lemma RemoveActionEffect(fields: map<string, Json>, items: seq<Json>, i: nat)
    requires "patient_actions" in fields && fields["patient_actions"] == JList(items)
    ensures ApplyOne(JObj(fields), Remove(ActionPath(i))) ==
      if i < |items| then Ok(JObj(fields["patient_actions" := JList(items[..i] + items[i + 1..])]))
      else Err("IndexError")
  {
    ActionPathParts(i);
    ParseIntOfNatToString(i);
    assert !IsDigit("patient_actions"[0]);
    RemoveUnderKey(fields, "patient_actions", items, NatToString(i), i);
  }

  /** The list left when `i` and then `j` (`i <= j`) are deleted: the second
      deletion hits the element originally at `j + 1`. */
  lemma DeleteTwice(items: seq<Json>, i: nat, j: nat)
    requires i <= j && j + 1 < |items|
    ensures var once := items[..i] + items[i + 1..];
      j < |once| && once[..j] + once[j + 1..] == items[..i] + items[i + 1..j + 1] + items[j + 2..]
  {
    var once := items[..i] + items[i + 1..];
    assert once[..j] == items[..i] + items[i + 1..j + 1];
    assert once[j + 1..] == items[j + 2..];
  }

  /** Two patches in a row. */
  lemma ApplyPair(obj: Json, p: Patch, q: Patch)
    ensures ApplyAll(obj, [p, q]) ==
      match ApplyOne(obj, p)
      case Err(e) => Err(e)
      case Ok(next) => ApplyOne(next, q)
  {
    assert [p, q][1..] == [q];
    assert [q][1..] == [];
    match ApplyOne(obj, p)
    case Err(_) =>
    case Ok(next) =>
      assert ApplyAll(obj, [p, q]) == ApplyAll(next, [q]);
      match ApplyOne(next, q)
      case Err(_) =>
      case Ok(last) => assert ApplyAll(next, [q]) == ApplyAll(last, []);
  }

  /** Later patches are not adjusted for earlier deletions: removing actions
      `i` and then `j >= i` deletes the originals at `i` and `j + 1`. */
  lemma NoIndexAdjustment(fields: map<string, Json>, items: seq<Json>, i: nat, j: nat)
    requires "patient_actions" in fields && fields["patient_actions"] == JList(items)
    requires i <= j && j + 1 < |items|
    ensures ApplyAll(JObj(fields), [Remove(ActionPath(i)), Remove(ActionPath(j))]) ==
      Ok(JObj(fields["patient_actions" := JList(items[..i] + items[i + 1..j + 1] + items[j + 2..])]))
  {
    var once := items[..i] + items[i + 1..];
    RemoveActionEffect(fields, items, i);
    var fields1 := fields["patient_actions" := JList(once)];
    RemoveActionEffect(fields1, once, j);
    DeleteTwice(items, i, j);
    assert fields1["patient_actions" := JList(once[..j] + once[j + 1..])] ==
      fields["patient_actions" := JList(items[..i] + items[i + 1..j + 1] + items[j + 2..])];
    ApplyPair(JObj(fields), Remove(ActionPath(i)), Remove(ActionPath(j)));
  }

  /** The patches that do something. */
  function Removals(patches: seq<Patch>): (r: seq<Patch>)
    ensures forall p :: p in r <==> p in patches && p.op == "remove"
    decreases |patches|
  {
    if patches == [] then []
    else (if patches[0].op == "remove" then [patches[0]] else []) + Removals(patches[1..])
  }

  /** Patches other than "remove" are skipped. */
  lemma {:induction false} OnlyRemovalsAct(obj: Json, patches: seq<Patch>)
    ensures ApplyAll(obj, patches) == ApplyAll(obj, Removals(patches))
    decreases |patches|
  {
    if patches != [] {
      var rest := patches[1..];
      if patches[0].op == "remove" {
        assert Removals(patches) == [patches[0]] + Removals(rest);
        assert (Removals(patches))[1..] == Removals(rest);
        match ApplyOne(obj, patches[0])
        case Err(_) =>
        case Ok(next) => OnlyRemovalsAct(next, rest);
      } else {
        assert Removals(patches) == Removals(rest);
        OnlyRemovalsAct(obj, rest);
      }
    }
  }

  // -------------------------------------------------- repeated patches

  /** The same action named twice, as written: the first patch deletes action
      `i`, the second deletes its neighbour `i + 1`, or fails with IndexError
      when `i` was the last action. */
  lemma RepeatedRemoveHitsNeighbour(fields: map<string, Json>, items: seq<Json>, i: nat)
    requires "patient_actions" in fields && fields["patient_actions"] == JList(items)
    requires i < |items|
    ensures ApplyAll(JObj(fields), [Remove(ActionPath(i)), Remove(ActionPath(i))]) ==
      if i + 1 < |items| then Ok(JObj(fields["patient_actions" := JList(items[..i] + items[i + 2..])]))
      else Err("IndexError")
  {
    ApplyPair(JObj(fields), Remove(ActionPath(i)), Remove(ActionPath(i)));
    if i + 1 < |items| {
      NoIndexAdjustment(fields, items, i, i);
      assert items[..i] + items[i + 1..i + 1] + items[i + 2..] == items[..i] + items[i + 2..];
    } else {
      var once := items[..i] + items[i + 1..];
      RemoveActionEffect(fields, items, i);
      RemoveActionEffect(fields["patient_actions" := JList(once)], once, i);
    }
  }

  lemma ActionPathZero()
    ensures ActionPath(0) == "/patient_actions/0"
  {
    assert NatToString(0) == "0";
  }

  /** The patches the guardrails emit for a lone action flagged twice. */
  lemma LoneActionPatchedTwice(a: PatientAction, patches: seq<Patch>)
    requires patches == [Remove("/patient_actions/0"), Remove("/patient_actions/0")]
    ensures ApplyAll(OutputJson(Reasoned([], [a], [])), patches) == Err("IndexError")
  {
    ActionPathZero();
    RepeatedRemoveHitsNeighbour(OutputJson(Reasoned([], [a], [])).fields, ActionsJson([a]), 0);
  }

  /** The reply with one action whose task is "dose": GR_003 and GR_004 both
      flag it, the report fails, and applying its patches raises IndexError. */
  lemma DoseOnlyActionCrashes(bucket: string, why: string, risk: string)
    ensures var out := Reasoned([], [PatientAction(bucket, "dose", why, risk)], []);
      ApplyAll(OutputJson(out), PatchesOf(Findings(out, [], []))) == Err("IndexError")
  {
    var a := PatientAction(bucket, "dose", why, risk);
    DoseTaskPatchedTwice(bucket, why, risk);
    LoneActionPatchedTwice(a, PatchesOf(Findings(Reasoned([], [a], []), [], [])));
  }

  // ------------------------------------------- the intended removal

  /** The positions below `n` that are not flagged, ascending. */
  function Unflagged(n: nat, flagged: set<nat>): (ix: seq<nat>)
    ensures forall k :: 0 <= k < |ix| ==> ix[k] < n
  {
    if n == 0 then [] else Unflagged(n - 1, flagged) + (if n - 1 in flagged then [] else [n - 1])
  }

  lemma {:induction false} UnflaggedShape(n: nat, flagged: set<nat>)
    ensures var ix := Unflagged(n, flagged);
      && (forall a, b :: 0 <= a < b < |ix| ==> ix[a] < ix[b])
      && (forall i: nat :: i in ix <==> i < n && i !in flagged)
  {
    if n > 0 {
      UnflaggedShape(n - 1, flagged);
    }
  }

  /** The items whose positions are not flagged, in their order. */
  function KeepUnflagged<T>(items: seq<T>, flagged: set<nat>): seq<T> {
    if items == [] then []
    else
      var n := |items| - 1;
      KeepUnflagged(items[..n], flagged) + (if n in flagged then [] else [items[n]])
  }

  /** Each flagged item is dropped exactly once and the others are kept in
      order: the result selects the items at the unflagged positions. */
  lemma {:induction false} KeepUnflaggedSelects<T>(items: seq<T>, flagged: set<nat>)
    ensures var ix := Unflagged(|items|, flagged);
      |KeepUnflagged(items, flagged)| == |ix| &&
      forall k :: 0 <= k < |ix| ==> KeepUnflagged(items, flagged)[k] == items[ix[k]]
  {
    if items != [] {
      var n := |items| - 1;
      KeepUnflaggedSelects(items[..n], flagged);
      assert |items[..n]| == n;
    }
  }

  /** The actions some "remove" patch names. */
  function FlaggedActions(n: nat, patches: seq<Patch>): set<nat> {
    set i: nat | i < n && Remove(ActionPath(i)) in patches
  }

  /** The intended effect of the action patches: every action a patch names
      is removed once, however often it is named and in whatever order. */
  function RemoveFlaggedActions(output: Json, patches: seq<Patch>): Json {
    match output
    case JObj(fields) =>
      if "patient_actions" in fields && fields["patient_actions"].JList? then
        var items := fields["patient_actions"].items;
        JObj(fields["patient_actions" := JList(KeepUnflagged(items, FlaggedActions(|items|, patches)))])
      else output
    case _ => output
  }

  /** The order and multiplicity of the patches do not matter. */
  lemma RemoveFlaggedIgnoresRepeats(output: Json, ps: seq<Patch>, qs: seq<Patch>)
    requires forall p :: p in ps <==> p in qs
    ensures RemoveFlaggedActions(output, ps) == RemoveFlaggedActions(output, qs)
  {
    if output.JObj? && "patient_actions" in output.fields && output.fields["patient_actions"].JList? {
      var n := |output.fields["patient_actions"].items|;
      assert FlaggedActions(n, ps) == FlaggedActions(n, qs);
    }
  }

  /** Where the patch loop is right, the intended removal agrees with it: one
      patch naming an existing action. */
  lemma RemoveFlaggedAgreesOnOnePatch(fields: map<string, Json>, items: seq<Json>, i: nat)
    requires "patient_actions" in fields && fields["patient_actions"] == JList(items)
    requires i < |items|
    ensures ApplyAll(JObj(fields), [Remove(ActionPath(i))]) ==
      Ok(RemoveFlaggedActions(JObj(fields), [Remove(ActionPath(i))]))
  {
    var ps := [Remove(ActionPath(i))];
    RemoveActionEffect(fields, items, i);
    assert ps[1..] == [];
    var flagged := FlaggedActions(|items|, ps);
    forall j: nat | j < |items|
      ensures j in flagged <==> j == i
    {
      if Remove(ActionPath(j)) == Remove(ActionPath(i)) {
        ActionPathParts(i);
        ActionPathParts(j);
        NatToStringInjective(i, j);
      }
    }
    KeepSkipsOne(items, flagged, i);
  }

  /** Dropping the one flagged position `i` is deleting the element at `i`. */
  lemma {:induction false} KeepSkipsOne<T>(items: seq<T>, flagged: set<nat>, i: nat)
    requires i < |items|
    requires forall j: nat :: j < |items| ==> (j in flagged <==> j == i)
    ensures KeepUnflagged(items, flagged) == items[..i] + items[i + 1..]
  {
    var n := |items| - 1;
    if n == i {
      KeepNoneFlagged(items[..n], flagged);
    } else {
      KeepSkipsOne(items[..n], flagged, i);
      assert items[..n][..i] + items[..n][i + 1..] + [items[n]] == items[..i] + items[i + 1..];
    }
  }

  lemma {:induction false} KeepNoneFlagged<T>(items: seq<T>, flagged: set<nat>)
    requires forall j: nat :: j < |items| ==> j !in flagged
    ensures KeepUnflagged(items, flagged) == items
  {
    if items != [] {
      var n := |items| - 1;
      KeepNoneFlagged(items[..n], flagged);
    }
  }

  /** A single action named by every patch is removed. */
  lemma RemoveFlaggedOnlyAction(fields: map<string, Json>, x: Json, ps: seq<Patch>)
    requires "patient_actions" in fields && fields["patient_actions"] == JList([x])
    requires Remove(ActionPath(0)) in ps
    ensures RemoveFlaggedActions(JObj(fields), ps) == JObj(fields["patient_actions" := JList([])])
  {
    assert FlaggedActions(1, ps) == {0};
    assert [x][..0] == [];
    assert KeepUnflagged([x], {0}) == KeepUnflagged([x][..0], {0}) + [];
  }

  lemma LoneActionRemovedOnce(a: PatientAction, patches: seq<Patch>)
    requires patches == [Remove("/patient_actions/0"), Remove("/patient_actions/0")]
    ensures RemoveFlaggedActions(OutputJson(Reasoned([], [a], [])), patches) == OutputJson(Reasoned([], [], []))
  {
    ActionPathZero();
    var fields := OutputJson(Reasoned([], [a], [])).fields;
    RemoveFlaggedOnlyAction(fields, ActionJson(a), patches);
    assert fields["patient_actions" := JList([])] == OutputJson(Reasoned([], [], [])).fields;
  }

  /** The reply with the one "dose" action loses that action and nothing
      breaks. */
  lemma DoseOnlyActionRemovedOnce(bucket: string, why: string, risk: string)
    ensures var out := Reasoned([], [PatientAction(bucket, "dose", why, risk)], []);
      RemoveFlaggedActions(OutputJson(out), PatchesOf(Findings(out, [], []))) ==
      OutputJson(Reasoned([], [], []))
  {
    var a := PatientAction(bucket, "dose", why, risk);
    DoseTaskPatchedTwice(bucket, why, risk);
    LoneActionRemovedOnce(a, PatchesOf(Findings(Reasoned([], [a], []), [], [])));
  }
}
