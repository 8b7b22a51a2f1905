/**
 * Procedure steps: the `{text, completion}` rows of a task, how raw stored
 * values and form columns are normalised into them, the hard validation a
 * save applies, and the warnings-only linter.
 */
module Steps {
  import opened Base
  import opened Text
  import opened Json

  /** One procedure step: what to do and how to tell it is done. */
  datatype Step = Step(text: string, completion: string)

  /** A row that survives the "drop empty rows" filter: text or completion is non-empty. */
  predicate NonEmptyStep(st: Step)
  {
    st.text != [] || st.completion != []
  }

  /** The stored form of a step list: a JSON list of `{"text": ..., "completion": ...}` objects. */
  function StepJson(st: Step): Json
  {
    JObj(map["text" := JStr(st.text), "completion" := JStr(st.completion)])
  }

  function StepsJson(steps: seq<Step>): (r: Json)
    ensures r.JList? && |r.items| == |steps|
    ensures forall i :: 0 <= i < |steps| ==> r.items[i] == StepJson(steps[i])
  {
    JList(seq(|steps|, i requires 0 <= i < |steps| => StepJson(steps[i])))
  }

  // ---------------------------------------------------------------------------
  // _normalize_steps

  /**
   * What one list item contributes: a string becomes a step with an empty
   * completion, a dictionary has its "text" and "completion" entries
   * converted with `str()` (missing entries read as ""), anything else is
   * skipped.
   */
  function StepOfItem(item: Json): (r: Option<Step>)
    ensures item.JStr? ==> r == Some(Step(item.s, ""))
    ensures !item.JStr? && !item.JObj? ==> r == None
  {
    match item
    case JStr(s) => Some(Step(s, ""))
    case JObj(f) => Some(Step(PyStr(Get(f, "text", JStr(""))), PyStr(Get(f, "completion", JStr("")))))
    case _ => None
  }

  /** The `out` list built by the loop over the raw items, before empty rows are dropped. */
  function CollectSteps(items: seq<Json>): (r: seq<Step>)
    ensures |r| <= |items|
  {
    if items == [] then []
    else
      (match StepOfItem(items[0]) case Some(st) => [st] case None => []) + CollectSteps(items[1..])
  }

  /** `_normalize_steps(raw)`: anything that is not a list (None included) yields no steps. */
  function NormalizeSteps(raw: Json): (r: seq<Step>)
    ensures !raw.JList? ==> r == []
    ensures raw.JList? ==> |r| <= |raw.items|
    ensures forall st :: st in r ==> NonEmptyStep(st)
  {
    if raw.JList? then Filter(NonEmptyStep, CollectSteps(raw.items)) else []
  }

  /** Every normalised step comes from some item of the input, and every non-empty item's step is kept. */
  lemma {:induction false} CollectStepsMembership(items: seq<Json>, st: Step)
    ensures st in CollectSteps(items) <==> exists i :: 0 <= i < |items| && StepOfItem(items[i]) == Some(st)
  {
    if items != [] {
      CollectStepsMembership(items[1..], st);
      if StepOfItem(items[0]) == Some(st) {
        assert st in CollectSteps(items);
      }
      if exists i :: 0 <= i < |items| && StepOfItem(items[i]) == Some(st) {
        var i :| 0 <= i < |items| && StepOfItem(items[i]) == Some(st);
        if i > 0 {
          assert StepOfItem(items[1..][i - 1]) == Some(st);
        }
      }
      if exists i :: 0 <= i < |items[1..]| && StepOfItem(items[1..][i]) == Some(st) {
        var i :| 0 <= i < |items[1..]| && StepOfItem(items[1..][i]) == Some(st);
        assert StepOfItem(items[i + 1]) == Some(st);
      }
    }
  }

  /** A non-empty step is in the normalised list exactly when some input item yields it. */
  lemma NormalizeStepsMembership(items: seq<Json>, st: Step)
    ensures st in NormalizeSteps(JList(items)) <==>
      NonEmptyStep(st) && exists i :: 0 <= i < |items| && StepOfItem(items[i]) == Some(st)
  {
    FilterMembership(NonEmptyStep, CollectSteps(items), st);
    CollectStepsMembership(items, st);
  }

  /** Normalisation keeps the input order: its output is a subsequence of the per-item steps. */
  lemma NormalizeStepsKeepsOrder(items: seq<Json>)
    ensures IsSubsequence(NormalizeSteps(JList(items)), CollectSteps(items))
  {
    FilterIsSubsequence(NonEmptyStep, CollectSteps(items));
  }

  lemma {:induction false} CollectStepsOfStepsJson(steps: seq<Step>)
    ensures CollectSteps(StepsJson(steps).items) == steps
  {
    if steps != [] {
      var items := StepsJson(steps).items;
      assert items[1..] == StepsJson(steps[1..]).items;
      CollectStepsOfStepsJson(steps[1..]);
      var f := items[0].fields;
      assert Get(f, "text", JStr("")) == JStr(steps[0].text);
      assert Get(f, "completion", JStr("")) == JStr(steps[0].completion);
    }
  }

  /** Storing non-empty steps and normalising them back returns the same steps. */
  lemma NormalizeStoredSteps(steps: seq<Step>)
    requires forall st :: st in steps ==> NonEmptyStep(st)
    ensures NormalizeSteps(StepsJson(steps)) == steps
  {
    CollectStepsOfStepsJson(steps);
    FilterAll(NonEmptyStep, steps);
  }

  /** Normalising is idempotent through storage. */
  lemma NormalizeStepsIdempotent(raw: Json)
    ensures NormalizeSteps(StepsJson(NormalizeSteps(raw))) == NormalizeSteps(raw)
  {
    NormalizeStoredSteps(NormalizeSteps(raw));
  }

  // ---------------------------------------------------------------------------
  // _zip_steps

  /** The first loop of `_zip_steps`: the (stripped) columns paired up to the shorter length. */
  function Paired(texts: seq<string>, completions: seq<string>): (r: seq<Step>)
    ensures |r| == if |texts| < |completions| then |texts| else |completions|
    ensures forall i :: 0 <= i < |r| ==> r[i] == Step(texts[i], completions[i])
  {
    var m := if |texts| < |completions| then |texts| else |completions|;
    seq(m, i requires 0 <= i < m => Step(texts[i], completions[i]))
  }

  /** The second and third loops: whatever one column has beyond the other, with an empty partner. */
  function Leftover(texts: seq<string>, completions: seq<string>): (r: seq<Step>)
    ensures |texts| >= |completions| ==> |r| == |texts| - |completions|
    ensures |texts| < |completions| ==> |r| == |completions| - |texts|
    ensures |texts| > |completions| ==>
      forall i :: 0 <= i < |r| ==> r[i] == Step(texts[|completions| + i], "")
    ensures |texts| < |completions| ==>
      forall i :: 0 <= i < |r| ==> r[i] == Step("", completions[|texts| + i])
  {
    if |texts| > |completions| then
      seq(|texts| - |completions|, i requires 0 <= i < |texts| - |completions| => Step(texts[|completions| + i], ""))
    else if |completions| > |texts| then
      seq(|completions| - |texts|, i requires 0 <= i < |completions| - |texts| => Step("", completions[|texts| + i]))
    else []
  }

  /**
   * `_zip_steps(step_text, step_completion)`: every cell of the two form
   * columns stripped, the columns paired, the longer one's remainder
   * appended with empty partners, and then the empty rows dropped.
   */
  function ZipSteps(texts: seq<string>, completions: seq<string>): (r: seq<Step>)
    ensures forall st :: st in r ==> NonEmptyStep(st)
  {
    var ts, cs := StripAll(texts), StripAll(completions);
    Filter(NonEmptyStep, Paired(ts, cs) + Leftover(ts, cs))
  }

  /** A step whose cells are already stripped. */
  predicate StrippedStep(st: Step)
  {
    Strip(st.text) == st.text && Strip(st.completion) == st.completion
  }

  /** Reference definition: `itertools.zip_longest` of two columns with "" as the fill value. */
  function ZipLongest(texts: seq<string>, completions: seq<string>): (r: seq<Step>)
    ensures |r| == if |texts| < |completions| then |completions| else |texts|
    ensures forall i :: 0 <= i < |r| ==>
      r[i] == Step(if i < |texts| then texts[i] else "", if i < |completions| then completions[i] else "")
  {
    var n := if |texts| < |completions| then |completions| else |texts|;
    seq(n, i requires 0 <= i < n =>
      Step(if i < |texts| then texts[i] else "", if i < |completions| then completions[i] else ""))
  }

  /** Pairing followed by the leftover rows is zip-longest. */
  lemma PairedLeftoverIsZipLongest(ts: seq<string>, cs: seq<string>)
    ensures Paired(ts, cs) + Leftover(ts, cs) == ZipLongest(ts, cs)
  {
    var p, l, z := Paired(ts, cs), Leftover(ts, cs), ZipLongest(ts, cs);
    assert |p + l| == |z|;
    forall i | 0 <= i < |z| ensures (p + l)[i] == z[i] {
      if i >= |p| {
        assert (p + l)[i] == l[i - |p|];
      }
    }
  }

  /** The three loops of `_zip_steps` amount to zip-longest of the stripped columns, then the empty-row filter. */
  lemma ZipStepsIsZipLongest(texts: seq<string>, completions: seq<string>)
    ensures ZipSteps(texts, completions) == Filter(NonEmptyStep, ZipLongest(StripAll(texts), StripAll(completions)))
  {
    PairedLeftoverIsZipLongest(StripAll(texts), StripAll(completions));
  }

  /** Every cell of a stripped column is already stripped. */
  lemma StripAllStripped(xs: seq<string>)
    ensures forall x :: x in StripAll(xs) ==> Strip(x) == x
  {
    forall x | x in StripAll(xs) ensures Strip(x) == x {
      var i :| 0 <= i < |xs| && StripAll(xs)[i] == x;
      StripIdempotent(xs[i]);
    }
  }

  /** Each zip-longest row takes its cells from the columns or from the "" fill value. */
  lemma ZipLongestCells(ts: seq<string>, cs: seq<string>)
    ensures forall st :: st in ZipLongest(ts, cs) ==> (st.text in ts || st.text == []) && (st.completion in cs || st.completion == [])
  {
    forall st | st in ZipLongest(ts, cs)
      ensures (st.text in ts || st.text == []) && (st.completion in cs || st.completion == [])
    {
      var i :| 0 <= i < |ZipLongest(ts, cs)| && ZipLongest(ts, cs)[i] == st;
    }
  }

  /** The zipped steps keep the columns' order and are no more than the longer column. */
  lemma ZipStepsOrderAndLength(texts: seq<string>, completions: seq<string>)
    ensures |ZipSteps(texts, completions)| <= if |texts| < |completions| then |completions| else |texts|
    ensures IsSubsequence(ZipSteps(texts, completions), ZipLongest(StripAll(texts), StripAll(completions)))
  {
    ZipStepsIsZipLongest(texts, completions);
    FilterIsSubsequence(NonEmptyStep, ZipLongest(StripAll(texts), StripAll(completions)));
  }

  /** Every zipped step has stripped cells, and no row is empty on both sides. */
  lemma ZipStepsClean(texts: seq<string>, completions: seq<string>)
    ensures forall st :: st in ZipSteps(texts, completions) ==> NonEmptyStep(st) && StrippedStep(st)
  {
    var ts, cs := StripAll(texts), StripAll(completions);
    var z := ZipLongest(ts, cs);
    ZipStepsIsZipLongest(texts, completions);
    StripAllStripped(texts);
    StripAllStripped(completions);
    ZipLongestCells(ts, cs);
    StripClean([]);
    forall st | st in ZipSteps(texts, completions) ensures StrippedStep(st) {
      assert st in z;
    }
  }

  function Texts(steps: seq<Step>): (r: seq<string>)
    ensures |r| == |steps| && forall i :: 0 <= i < |steps| ==> r[i] == steps[i].text
  {
    seq(|steps|, i requires 0 <= i < |steps| => steps[i].text)
  }

  function Completions(steps: seq<Step>): (r: seq<string>)
    ensures |r| == |steps| && forall i :: 0 <= i < |steps| ==> r[i] == steps[i].completion
  {
    seq(|steps|, i requires 0 <= i < |steps| => steps[i].completion)
  }

  /** The edit form's two columns, submitted unchanged, zip back to the same steps. */
  lemma ZipStepsRoundTrip(steps: seq<Step>)
    requires forall st :: st in steps ==> NonEmptyStep(st) && StrippedStep(st)
    ensures ZipSteps(Texts(steps), Completions(steps)) == steps
  {
    var ts, cs := StripAll(Texts(steps)), StripAll(Completions(steps));
    ZipStepsIsZipLongest(Texts(steps), Completions(steps));
    forall i | 0 <= i < |steps| ensures ZipLongest(ts, cs)[i] == steps[i] {
      assert steps[i] in steps;
    }
    assert ZipLongest(ts, cs) == steps;
    FilterAll(NonEmptyStep, steps);
  }

  // ---------------------------------------------------------------------------
  // _validate_steps_required

  /** Why a step list is rejected with status 400; indexes are 1-based. */
  datatype StepError = NoSteps | TextRequired(index: nat) | CompletionRequired(index: nat)

  /** A step that passes validation: neither its text nor its completion is blank. */
  predicate CompleteStep(st: Step)
  {
    !IsBlank(st.text) && !IsBlank(st.completion)
  }

  predicate CompleteBetween(steps: seq<Step>, lo: nat, hi: nat)
    requires lo <= hi <= |steps|
  {
    forall j :: lo <= j < hi ==> CompleteStep(steps[j])
  }

  /**
   * `e` is the error reported for the first incomplete step at or after
   * index `k`: the step is incomplete in the way `e` says (text is checked
   * before completion) and every step between `k` and it is complete.
   */
  predicate FirstFailureAt(steps: seq<Step>, k: nat, e: StepError)
    requires k <= |steps|
  {
    match e
    case NoSteps => false
    case TextRequired(i) =>
      k < i <= |steps| && IsBlank(steps[i - 1].text) && CompleteBetween(steps, k, i - 1)
    case CompletionRequired(i) =>
      k < i <= |steps| && !IsBlank(steps[i - 1].text) && IsBlank(steps[i - 1].completion)
      && CompleteBetween(steps, k, i - 1)
  }

  /** The scan over `steps[k..]` of `_validate_steps_required`, reporting 1-based positions. */
  function FirstIncomplete(steps: seq<Step>, k: nat): (r: Outcome<StepError>)
    requires k <= |steps|
    ensures r == Pass <==> CompleteBetween(steps, k, |steps|)
    ensures r.Fail? ==> FirstFailureAt(steps, k, r.error)
    decreases |steps| - k
  {
    if k == |steps| then Pass
    else if Strip(steps[k].text) == [] then Fail(TextRequired(k + 1))
    else if Strip(steps[k].completion) == [] then Fail(CompletionRequired(k + 1))
    else
      var r := FirstIncomplete(steps, k + 1);
      assert r.Fail? ==> FirstFailureAt(steps, k, r.error) by {
        if r.Fail? {
          assert FirstFailureAt(steps, k + 1, r.error);
        }
      }
      r
  }

  /**
   * `_validate_steps_required(steps)`: rejects an empty list, then the first
   * step whose text (checked first) or completion is blank.
   */
  function ValidateSteps(steps: seq<Step>): (r: Outcome<StepError>)
    ensures r == Pass <==> steps != [] && forall st :: st in steps ==> CompleteStep(st)
    ensures r == Fail(NoSteps) <==> steps == []
    ensures r.Fail? && r.error != NoSteps ==> FirstFailureAt(steps, 0, r.error)
  {
    if steps == [] then Fail(NoSteps)
    else
      var r := FirstIncomplete(steps, 0);
      assert r == Pass ==> forall st :: st in steps ==> CompleteStep(st) by {
        if r == Pass {
          forall st | st in steps ensures CompleteStep(st) {
            var j :| 0 <= j < |steps| && steps[j] == st;
          }
        }
      }
      r
  }

  /** The `detail` text of the 400 response. */
  function StepErrorDetail(e: StepError): (r: string)
    ensures r != []
  {
    match e
    case NoSteps => "At least one step is required"
    case TextRequired(i) => "Step " + IntToString(i) + ": step text is required"
    case CompletionRequired(i) => "Step " + IntToString(i) + ": completion text is required"
  }
}
