/**
 * The warnings-only step linter: for each normalised step it may flag an
 * abstract opening verb, a bundled multi-action step, and a state change
 * without a confirmation check. It never rejects anything.
 */
module Lint {
  import opened Base
  import opened Text
  import opened Json
  import opened Steps

  /** ABSTRACT_VERBS, in a fixed order (the order is shown below not to matter). */
  const AbstractVerbs: seq<string> :=
    ["edit", "configure", "set up", "setup", "manage", "ensure", "handle", "prepare", "troubleshoot"]

  /** STATE_CHANGE_VERBS */
  const StateChangeVerbs: seq<string> :=
    ["install", "mount", "enable", "add", "update", "remove", "create", "delete"]

  const CheckWords: seq<string> := ["confirm", "verify", "check"]

  const Conjunctions: seq<string> := ["and", "then", "also", "as well as"]

  /** `low.startswith(v + " ") or low == v` */
  predicate StartsVerb(low: string, v: string)
  {
    StartsWith(low, v + " ") || low == v
  }

  predicate StartsAnyVerb(low: string, vs: seq<string>)
  {
    exists k | 0 <= k < |vs| :: StartsVerb(low, vs[k])
  }

  /** A backtick, at least one character other than a newline, and a later backtick: a match of `` `.+?` ``. */
  predicate BacktickSpanAt(s: string, i: nat, j: nat)
  {
    i + 2 <= j < |s| && s[i] == '`' && s[j] == '`' && forall k :: i < k < j ==> s[k] != '\n'
  }

  predicate HasBacktickSpan(s: string)
  {
    exists i: nat, j: nat | i < j < |s| :: BacktickSpanAt(s, i, j)
  }

  /** The first verb of `vs` that the lowered step starts with, as the `for ... break` loop finds it. */
  function FirstVerb(low: string, vs: seq<string>): (r: Option<string>)
    ensures r.Some? ==> r.value in vs && StartsVerb(low, r.value)
    ensures r.None? <==> !StartsAnyVerb(low, vs)
  {
    if vs == [] then None
    else if StartsVerb(low, vs[0]) then Some(vs[0])
    else
      var r := FirstVerb(low, vs[1..]);
      assert StartsAnyVerb(low, vs[1..]) ==> StartsAnyVerb(low, vs) by {
        if StartsAnyVerb(low, vs[1..]) {
          var k :| 0 <= k < |vs[1..]| && StartsVerb(low, vs[1..][k]);
          assert StartsVerb(low, vs[k + 1]);
        }
      }
      r
  }

  /** No step can start with two different abstract verbs. */
  lemma AtMostOneAbstractVerb(low: string, v1: string, v2: string)
    requires v1 in AbstractVerbs && v2 in AbstractVerbs
    requires StartsVerb(low, v1) && StartsVerb(low, v2)
    ensures v1 == v2
  {
    StartsVerbPrefix(low, v1);
    StartsVerbPrefix(low, v2);
    AbstractVerbsLength(v1);
    AbstractVerbsLength(v2);
    assert v1[0] == low[0] == v2[0] && v1[1] == low[1] == v2[1] && v1[3] == low[3] == v2[3];
    AbstractVerbsDistinguished(v1, v2);
  }

  lemma StartsVerbPrefix(low: string, v: string)
    requires StartsVerb(low, v)
    ensures |v| <= |low| && forall k :: 0 <= k < |v| ==> low[k] == v[k]
  {
    if low != v {
      assert low[..|v| + 1] == v + " ";
      assert forall k :: 0 <= k < |v| ==> low[k] == low[..|v| + 1][k];
    }
  }

  lemma AbstractVerbsLength(v: string)
    requires v in AbstractVerbs
    ensures |v| >= 4
  {
  }

  /** Every abstract verb has at least four letters, and letters 1, 2 and 4 tell them apart. */
  lemma AbstractVerbsDistinguished(v1: string, v2: string)
    requires v1 in AbstractVerbs && v2 in AbstractVerbs
    requires |v1| >= 4 && |v2| >= 4 && v1[0] == v2[0] && v1[1] == v2[1] && v1[3] == v2[3]
    ensures v1 == v2
  {
  }

  /**
   * The abstract-verb check does not depend on the order in which the verb
   * set is iterated: whichever verb the step starts with is the one found.
   */
  lemma AbstractVerbOrderIrrelevant(low: string, v: string)
    requires v in AbstractVerbs && StartsVerb(low, v)
    ensures FirstVerb(low, AbstractVerbs) == Some(v)
  {
    var k :| 0 <= k < |AbstractVerbs| && AbstractVerbs[k] == v;
    assert StartsAnyVerb(low, AbstractVerbs);
    AtMostOneAbstractVerb(low, FirstVerb(low, AbstractVerbs).value, v);
  }

  /** One warning; `step` is the 1-based position in the normalised list. */
  datatype Warning = AbstractVerb(step: nat, verb: string) | MultiAction(step: nat) | NoStateCheck(step: nat)

  /** The warning text shown to the author. */
  function Message(w: Warning): string
  {
    var prefix := "Step " + IntToString(w.step) + ": ";
    match w
    case AbstractVerb(_, v) =>
      prefix + "starts with abstract verb '" + v
      + "'. Prefer decomposed steps with explicit method + completion check."
    case MultiAction(_) =>
      prefix + "may include multiple actions (contains conjunction like 'and/then/also'). Consider splitting."
    case NoStateCheck(_) =>
      prefix + "appears to change state; include an explicit confirmation check (command/UI observable) or follow with a check step."
  }

  /** A step that names its own check (a backticked command, or confirm/verify/check) is not told to add one. */
  predicate HasCheck(text: string)
  {
    HasBacktickSpan(text) || HasAnyWord(Lower(Strip(text)), CheckWords)
  }

  /** What the linter looks at in one step's text. */
  datatype StepTraits = StepTraits(abstractVerb: Option<string>, conjunction: bool, stateChange: bool, hasCheck: bool)

  /** The traits of a step's text, read off its stripped, lower-cased form (and, for backticks, its raw text). */
  function Traits(text: string): (t: StepTraits)
    ensures t.abstractVerb.None? <==> !StartsAnyVerb(Lower(Strip(text)), AbstractVerbs)
    ensures t.abstractVerb.Some? ==>
      t.abstractVerb.value in AbstractVerbs && StartsVerb(Lower(Strip(text)), t.abstractVerb.value)
    ensures t.conjunction <==> HasAnyWord(Lower(Strip(text)), Conjunctions)
    ensures t.stateChange <==> StartsAnyVerb(Lower(Strip(text)), StateChangeVerbs)
    ensures t.hasCheck <==> HasBacktickSpan(text) || HasAnyWord(Lower(Strip(text)), CheckWords)
  {
    var low := Lower(Strip(text));
    StepTraits(FirstVerb(low, AbstractVerbs), HasAnyWord(low, Conjunctions), StartsAnyVerb(low, StateChangeVerbs), HasCheck(text))
  }

  /** The warnings for step number `i`, in the order the checks run. */
  function WarningsFor(i: nat, t: StepTraits): (r: seq<Warning>)
    ensures |r| <= 3
    ensures forall w :: w in r ==> w.step == i
  {
    (if t.abstractVerb.Some? && !t.hasCheck then [AbstractVerb(i, t.abstractVerb.value)] else [])
    + (if t.conjunction then [MultiAction(i)] else [])
    + (if t.stateChange && !t.hasCheck then [NoStateCheck(i)] else [])
  }

  /** The warnings for step number `i` with text `text`. */
  function StepWarnings(i: nat, text: string): (r: seq<Warning>)
    ensures |r| <= 3
    ensures forall w :: w in r ==> w.step == i
  {
    WarningsFor(i, Traits(text))
  }

  /** The multi-action warning is given exactly when the step contains a conjunction word. */
  lemma MultiActionWarning(i: nat, text: string)
    ensures MultiAction(i) in StepWarnings(i, text) <==> HasAnyWord(Lower(Strip(text)), Conjunctions)
  {
  }

  /** A step that names its own check gets no abstract-verb and no state-change warning. */
  lemma CheckSuppressesWarnings(i: nat, text: string)
    requires HasCheck(text)
    ensures forall w :: w in StepWarnings(i, text) ==> w == MultiAction(i)
  {
  }

  /**
   * A step without its own check that starts with an abstract verb is warned
   * about that verb, whichever order the verbs are tried in; one that starts
   * with a state-changing verb is told to add a check.
   */
  lemma UncheckedStepWarnings(i: nat, text: string)
    requires !HasCheck(text)
    ensures forall v :: v in AbstractVerbs && StartsVerb(Lower(Strip(text)), v) ==> AbstractVerb(i, v) in StepWarnings(i, text)
    ensures NoStateCheck(i) in StepWarnings(i, text) <==> StartsAnyVerb(Lower(Strip(text)), StateChangeVerbs)
  {
    var low := Lower(Strip(text));
    forall v | v in AbstractVerbs && StartsVerb(low, v) ensures AbstractVerb(i, v) in StepWarnings(i, text) {
      AbstractVerbOrderIrrelevant(low, v);
    }
  }

  /** `lint_steps(steps)`: normalise, then lint each step in order, numbering from 1. */
  function LintSteps(raw: Json): (r: seq<Warning>)
    ensures |r| <= 3 * |NormalizeSteps(raw)|
    ensures NormalizeSteps(raw) == [] ==> r == []
  {
    var gs := MapIndexed((n: nat, st: Step) => StepWarnings(n, st.text), NormalizeSteps(raw), 1);
    FlattenBound(gs, 3);
    Flatten(gs)
  }

  /** Warnings come in step order. */
  predicate StepOrdered(ws: seq<Warning>)
  {
    forall a, b :: 0 <= a < b < |ws| ==> ws[a].step <= ws[b].step
  }

  /** Groups whose warnings are numbered `from`, `from + 1`, ... flatten to a step-ordered list. */
  lemma {:induction false} FlattenOrdered(gs: seq<seq<Warning>>, from: nat)
    requires forall k, w :: 0 <= k < |gs| && w in gs[k] ==> w.step == from + k
    ensures StepOrdered(Flatten(gs))
    ensures forall w :: w in Flatten(gs) ==> from <= w.step
  {
    if gs != [] {
      FlattenOrdered(gs[1..], from + 1);
      var head: seq<Warning>, tail: seq<Warning> := gs[0], Flatten(gs[1..]);
      assert forall w :: w in tail ==> from + 1 <= w.step;
      forall a: int, b: int | 0 <= a < b < |head + tail| ensures (head + tail)[a].step <= (head + tail)[b].step {
        if a < |head| {
          assert (head + tail)[a] in gs[0];
          if b >= |head| {
            assert (head + tail)[b] == tail[b - |head|] && tail[b - |head|] in tail;
          } else {
            assert (head + tail)[b] in gs[0];
          }
        } else {
          assert (head + tail)[a] == tail[a - |head|] && (head + tail)[b] == tail[b - |head|];
        }
      }
      forall w | w in head + tail ensures from <= w.step {
        if w in head {
          assert w in gs[0];
        }
      }
    }
  }

  /**
   * `lint_steps` emits at most three warnings per normalised step, each
   * naming a step by its 1-based position, in step order; the warnings of
   * step `k` are exactly those StepWarnings gives for its text.
   */
  lemma LintStepsBounds(raw: Json)
    ensures |LintSteps(raw)| <= 3 * |NormalizeSteps(raw)|
    ensures forall w :: w in LintSteps(raw) ==> 1 <= w.step <= |NormalizeSteps(raw)|
    ensures StepOrdered(LintSteps(raw))
    ensures forall k, w :: 0 <= k < |NormalizeSteps(raw)| && w in StepWarnings(k + 1, NormalizeSteps(raw)[k].text) ==> w in LintSteps(raw)
  {
    var steps := NormalizeSteps(raw);
    var gs := MapIndexed((n: nat, st: Step) => StepWarnings(n, st.text), steps, 1);
    FlattenBound(gs, 3);
    FlattenMembership(gs);
    FlattenOrdered(gs, 1);
  }

  /** Conversely, every warning `lint_steps` emits is one of the warnings of the step it names. */
  lemma LintStepsOnlyOwn(raw: Json)
    ensures forall w :: w in LintSteps(raw) ==>
      1 <= w.step <= |NormalizeSteps(raw)| && w in StepWarnings(w.step, NormalizeSteps(raw)[w.step - 1].text)
  {
    var steps := NormalizeSteps(raw);
    var gs := MapIndexed((n: nat, st: Step) => StepWarnings(n, st.text), steps, 1);
    forall w | w in LintSteps(raw)
      ensures 1 <= w.step <= |steps| && w in StepWarnings(w.step, steps[w.step - 1].text)
    {
      FlattenContains(gs, w);
      var k :| 0 <= k < |gs| && w in gs[k];
      assert gs[k] == StepWarnings(k + 1, steps[k].text);
    }
  }
}
