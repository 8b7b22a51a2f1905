/**
 * The step-actions backfill: deriving optional command lines for a step
 * from its text, normalising a stored step list into
 * `{text, completion, actions}` objects, the test that decides whether a
 * stored row is rewritten, and the pass over the `tasks` table.
 */
module StepActions {
  import opened Base
  import opened Text
  import opened Json
  import opened ActionRules
  import opened Records
  import opened Store

  const UserGroup: seq<Canned> := [AddUser, UserExists]
  const GroupGroup: seq<Canned> := [AddToGroup, ShowUser]
  const JournalGroup: seq<Canned> := [Journal]
  const FstabGroup: seq<Canned> := [BackupFstab, EditFstab, MountAll, VerifyMounts]

  // ---------------------------------------------------------------------------
  // derive_actions

  /** The editor line for the first `edit|open /path` of the step, else for its first system path. */
  function EditLines(s: string): (r: seq<string>)
    ensures |r| <= 1
  {
    match EditPath(s)
    case Some(p) => [EditorLine(p)]
    case None =>
      match SystemPath(s)
      case Some(p) => [EditorLine(p)]
      case None => []
  }

  /** The user, group and log rules, in that order, guarded by the tool each one adds. */
  function AccountRules(low: string, actions: seq<string>): seq<string>
  {
    var a1 := AddUnless(actions, HasAnyWord(low, ["create", "add"]) && HasAnyWord(low, ["user", "account"]), "adduser", UserGroup);
    var a2 := AddUnless(a1, HasWord(low, "group") && HasAnyWord(low, ["add", "grant"]), "usermod", GroupGroup);
    AddUnless(a2, HasAnyWord(low, ["log", "journal"]), "journalctl", JournalGroup)
  }

  /** The mount rule, the only one without a guard. */
  function MountRule(low: string, actions: seq<string>): seq<string>
  {
    if HasAnyWord(low, ["mount", "fstab"]) then actions + Lines(FstabGroup) else actions
  }

  /**
   * The `actions` list `derive_actions` builds for the stripped step text
   * `s`, before de-duplication: the commands, the editor line, then each
   * keyword rule in the order the source applies them.
   */
  function RawActions(s: string): seq<string>
  {
    var low := Lower(s);
    MountRule(low, AccountRules(low, PackageRules(low, ServiceRules(low, Commands(s) + EditLines(s)))))
  }

  /** The value `derive_actions(step_text)` returns. */
  function Derived(text: string): (r: seq<string>)
    ensures Strip(text) == [] ==> r == []
    ensures NoDuplicates(r)
  {
    var s := Strip(text);
    if s == [] then []
    else
      var kept := Filter(NonEmpty, StripAll(RawActions(s)));
      DedupeFacts(kept);
      Dedupe(kept)
  }

  /** A line that is one of the canned command lines. */
  ghost predicate IsCannedLine(x: string)
  {
    exists c: Canned :: Line(c) == x
  }

  /** `r` starts with `p` and continues with canned lines only. */
  ghost predicate CannedAfter(p: seq<string>, r: seq<string>)
  {
    |p| <= |r| && r[..|p|] == p && forall i :: |p| <= i < |r| ==> IsCannedLine(r[i])
  }

  /** A keyword rule only ever appends canned lines. */
  lemma AddUnlessCanned(p: seq<string>, a: seq<string>, fires: bool, guard: string, group: seq<Canned>)
    requires CannedAfter(p, a)
    ensures CannedAfter(p, AddUnless(a, fires, guard, group))
  {
    var r := AddUnless(a, fires, guard, group);
    if r != a {
      assert r == a + Lines(group);
      forall i | |p| <= i < |r| ensures IsCannedLine(r[i]) {
        if i >= |a| {
          assert r[i] == Line(group[i - |a|]);
        } else {
          assert r[i] == a[i];
        }
      }
      assert r[..|p|] == a[..|p|];
    }
  }

  /** Appending canned lines keeps the shape. */
  lemma AppendCanned(p: seq<string>, a: seq<string>, group: seq<Canned>)
    requires CannedAfter(p, a)
    ensures CannedAfter(p, a + Lines(group))
  {
    var r := a + Lines(group);
    forall i | |p| <= i < |r| ensures IsCannedLine(r[i]) {
      if i >= |a| {
        assert r[i] == Line(group[i - |a|]);
      } else {
        assert r[i] == a[i];
      }
    }
    assert r[..|p|] == a[..|p|];
  }

  lemma ServiceRulesCanned(p: seq<string>, low: string, a: seq<string>)
    requires CannedAfter(p, a)
    ensures CannedAfter(p, ServiceRules(low, a))
  {
    var f1, f2, f3 := HasAnyWord(low, ["restart", "reload"]), HasWord(low, "enable"), HasWord(low, "disable");
    AddUnlessCanned(p, a, f1, Systemctl, RestartGroup);
    var a1 := AddUnless(a, f1, Systemctl, RestartGroup);
    AddUnlessCanned(p, a1, f2, Systemctl, EnableGroup);
    var a2 := AddUnless(a1, f2, Systemctl, EnableGroup);
    AddUnlessCanned(p, a2, f3, Systemctl, DisableGroup);
  }

  lemma PackageRulesCanned(p: seq<string>, low: string, a: seq<string>)
    requires CannedAfter(p, a)
    ensures CannedAfter(p, PackageRules(low, a))
  {
    var f1, f2 := HasWord(low, "install"), HasAnyWord(low, ["update", "upgrade"]);
    AddUnlessCanned(p, a, f1, AptGet, InstallGroup);
    var a1 := AddUnless(a, f1, AptGet, InstallGroup);
    AddUnlessCanned(p, a1, f2, AptGet, UpgradeGroup);
  }

  lemma AccountRulesCanned(p: seq<string>, low: string, a: seq<string>)
    requires CannedAfter(p, a)
    ensures CannedAfter(p, AccountRules(low, a))
  {
    var f1 := HasAnyWord(low, ["create", "add"]) && HasAnyWord(low, ["user", "account"]);
    var f2 := HasWord(low, "group") && HasAnyWord(low, ["add", "grant"]);
    var f3 := HasAnyWord(low, ["log", "journal"]);
    AddUnlessCanned(p, a, f1, "adduser", UserGroup);
    var a1 := AddUnless(a, f1, "adduser", UserGroup);
    AddUnlessCanned(p, a1, f2, "usermod", GroupGroup);
    var a2 := AddUnless(a1, f2, "usermod", GroupGroup);
    AddUnlessCanned(p, a2, f3, "journalctl", JournalGroup);
  }

  /**
   * The raw actions are the backticked commands, then the editor line if
   * any, then canned command lines only: a rule never edits or reorders
   * what came before it.
   */
  lemma RawActionsShape(s: string)
    ensures CannedAfter(Commands(s) + EditLines(s), RawActions(s))
  {
    var low := Lower(s);
    var p := Commands(s) + EditLines(s);
    assert p[..|p|] == p;
    ServiceRulesCanned(p, low, p);
    var a1 := ServiceRules(low, p);
    PackageRulesCanned(p, low, a1);
    var a2 := PackageRules(low, a1);
    AccountRulesCanned(p, low, a2);
    var a3 := AccountRules(low, a2);
    if HasAnyWord(low, ["mount", "fstab"]) {
      AppendCanned(p, a3, FstabGroup);
    }
  }
  /** `[x.strip() for x in a + b]` splits at the join. */
  lemma StripAllAppend(a: seq<string>, b: seq<string>)
    ensures StripAll(a + b) == StripAll(a) + StripAll(b)
  {
  }

  /**
   * What `derive_actions` promises: nothing for a blank step; otherwise
   * exactly the non-empty stripped raw actions, each once.
   */
  lemma DerivedFacts(text: string)
    ensures Strip(text) == [] ==> Derived(text) == []
    ensures NoDuplicates(Derived(text))
    ensures forall a :: a in Derived(text) ==> a != [] && Strip(a) == a
    ensures forall a :: a in Derived(text) <==>
      Strip(text) != [] && a != [] && a in StripAll(RawActions(Strip(text)))
  {
    var s := Strip(text);
    if s != [] {
      var raw := StripAll(RawActions(s));
      var kept := Filter(NonEmpty, raw);
      DedupeFacts(kept);
      StripAllStripped(RawActions(s));
      forall a ensures a in kept <==> a != [] && a in raw {
        FilterMembership(NonEmpty, raw, a);
      }
    }
  }

  /** A non-empty stripped raw action of a non-blank step is among its derived actions. */
  lemma InDerived(text: string, a: string)
    requires Strip(text) != [] && a != [] && a in StripAll(RawActions(Strip(text)))
    ensures a in Derived(text)
  {
    DerivedFacts(text);
  }

  /** The step's own backticked commands come first in the derived actions, in their original order. */
  lemma DerivedCommandsFirst(text: string)
    requires Strip(text) != []
    ensures var d := Dedupe(Commands(Strip(text)));
      |d| <= |Derived(text)| && Derived(text)[..|d|] == d
  {
    var s := Strip(text);
    var raw := RawActions(s);
    var c := Commands(s);
    var rest := CommandsPrefix(s);
    StripAllAppend(c, rest);
    CommandsClean(s);
    FilterAppend(NonEmpty, c, StripAll(rest));
    DedupePrefix(c, Filter(NonEmpty, StripAll(rest)));
  }

  /** The raw actions start with the commands. */
  lemma CommandsPrefix(s: string) returns (rest: seq<string>)
    ensures RawActions(s) == Commands(s) + rest
  {
    var c := Commands(s);
    RawActionsShape(s);
    PrefixOfPrefix(RawActions(s), c + EditLines(s), c);
    rest := RawActions(s)[|c|..];
  }

  lemma PrefixOfPrefix(r: seq<string>, p: seq<string>, c: seq<string>)
    requires |p| <= |r| && r[..|p|] == p && |c| <= |p| && p[..|c|] == c
    ensures r == c + r[|c|..]
  {
    assert r[..|c|] == r[..|p|][..|c|];
    assert r == r[..|c|] + r[|c|..];
  }

  /** The commands are kept as they are by the strip-and-filter pass. */
  lemma CommandsClean(s: string)
    ensures StripAll(Commands(s)) == Commands(s)
    ensures Filter(NonEmpty, Commands(s)) == Commands(s)
  {
    var c := Commands(s);
    assert forall i :: 0 <= i < |c| ==> c[i] in c;
    FilterAll(NonEmpty, c);
  }

  /** Filtering a list that grows by one element. */
  lemma FilterNonEmptySnoc(ys: seq<string>, y: string)
    ensures Filter(NonEmpty, ys + [y]) == Filter(NonEmpty, ys) + (if y != [] then [y] else [])
  {
    FilterAppend(NonEmpty, ys, [y]);
    assert [y][1..] == [];
  }

  /** The `seen`-set pass at the end of `derive_actions`, one element further. */
  lemma DedupeKeptStep(xs: seq<string>, i: nat)
    requires i < |xs|
    ensures Dedupe(Filter(NonEmpty, StripAll(xs[..i + 1]))) ==
      var d := Dedupe(Filter(NonEmpty, StripAll(xs[..i])));
      var x := Strip(xs[i]);
      if x == [] || x in d then d else d + [x]
  {
    assert xs[..i + 1] == xs[..i] + [xs[i]];
    StripAllAppend(xs[..i], [xs[i]]);
    var a := StripAll(xs[..i]);
    var x := Strip(xs[i]);
    assert StripAll([xs[i]]) == [x];
    FilterNonEmptySnoc(a, x);
    var f := Filter(NonEmpty, a);
    if x != [] {
      DedupeSnoc(f, x);
    } else {
      assert f + [] == f;
    }
  }

  /** `derive_actions(step_text)` as the source runs it. */
  method DeriveActions(text: string) returns (out: seq<string>)
    ensures out == Derived(text)
  {
    var s := Strip(text);
    if s == [] {
      return [];
    }
    var actions := RawActions(s);
    if actions == [] {
      return [];
    }
    out := [];
    var seen: set<string> := {};
    var i := 0;
    while i < |actions|
      invariant 0 <= i <= |actions|
      invariant out == Dedupe(Filter(NonEmpty, StripAll(actions[..i])))
      invariant forall x :: x in seen <==> x in out
    {
      DedupeKeptStep(actions, i);
      var x := Strip(actions[i]);
      if x != [] && x !in seen {
        seen := seen + {x};
        out := out + [x];
      }
      i := i + 1;
    }
    assert actions[..i] == actions;
  }

  /** The fstab lines are non-empty and already stripped. */
  lemma FstabLinesClean()
    ensures forall c :: c in FstabGroup ==> Line(c) != [] && Strip(Line(c)) == Line(c)
  {
    StripClean(Line(BackupFstab));
    StripClean(Line(EditFstab));
    StripClean(Line(MountAll));
    StripClean(Line(VerifyMounts));
  }

  /** A mount step's raw actions end with the fstab lines. */
  lemma MountRawActions(s: string)
    requires HasAnyWord(Lower(s), ["mount", "fstab"])
    ensures |RawActions(s)| >= 4
    ensures forall k :: 0 <= k < 4 ==> RawActions(s)[|RawActions(s)| - 4 + k] == Line(FstabGroup[k])
  {
  }

  /** The `k`-th fstab line is among the derived actions of a mount step. */
  lemma MountLineDerived(text: string, k: nat)
    requires Strip(text) != [] && HasAnyWord(Lower(Strip(text)), ["mount", "fstab"])
    requires k < 4
    ensures Line(FstabGroup[k]) in Derived(text)
  {
    var raw := RawActions(Strip(text));
    var a := Line(FstabGroup[k]);
    FstabLinesClean();
    assert a != [] && Strip(a) == a;
    MountRawActions(Strip(text));
    var i := |raw| - 4 + k;
    assert raw[i] == a;
    assert StripAll(raw)[i] == a;
    InDerived(text, a);
  }

  /** A step that mentions mounting or fstab always gets the four fstab lines. */
  lemma MountStepGetsFstabLines(text: string)
    requires Strip(text) != [] && HasAnyWord(Lower(Strip(text)), ["mount", "fstab"])
    ensures forall c :: c in FstabGroup ==> Line(c) in Derived(text)
  {
    forall c | c in FstabGroup
      ensures Line(c) in Derived(text)
    {
      var k :| 0 <= k < |FstabGroup| && FstabGroup[k] == c;
      MountLineDerived(text, k);
    }
  }

  // ---------------------------------------------------------------------------
  // normalize_steps

  /** A normalised step object: `{"text": ..., "completion": ..., "actions": [...]}`. */
  datatype ActionStep = ActionStep(text: string, completion: string, actions: seq<string>)

  /** The generic phrases that mark actions as placeholders to be replaced. */
  const Placeholders: seq<string> :=
    ["approved method", "approved tooling", "capture the exact commands", "use debian cli defaults"]

  /** `any(p in "\n".join(actions).lower() for p in placeholders)` */
  predicate HasPlaceholder(actions: seq<string>)
  {
    ContainsAny(Lower(Join("\n", actions)), Placeholders)
  }

  /** Stored actions are replaced by derived ones when there are none or they are placeholders. */
  predicate NeedsRewrite(actions: seq<string>)
  {
    actions == [] || HasPlaceholder(actions)
  }

  predicate NotBlank(s: string)
  {
    Strip(s) != []
  }

  /** `[str(x) for x in xs]` */
  function PyStrs(xs: seq<Json>): (r: seq<string>)
    ensures |r| == |xs|
    ensures forall i :: 0 <= i < |xs| ==> r[i] == PyStr(xs[i])
  {
    seq(|xs|, i requires 0 <= i < |xs| => PyStr(xs[i]))
  }

  /**
   * The actions a stored step already has: the non-blank `str()` of each
   * entry of a list, the stripped non-blank lines of a string, none for
   * anything else (a missing entry included).
   */
  function StoredActions(v: Json): (r: seq<string>)
    ensures v.JList? ==> forall a :: a in r <==> NotBlank(a) && a in PyStrs(v.items)
    ensures v.JStr? ==> r == ParseLines(v.s)
    ensures !v.JList? && !v.JStr? ==> r == []
  {
    match v
    case JList(xs) =>
      assert forall a :: a in Filter(NotBlank, PyStrs(xs)) <==> NotBlank(a) && a in PyStrs(xs) by {
        forall a ensures a in Filter(NotBlank, PyStrs(xs)) <==> NotBlank(a) && a in PyStrs(xs) {
          FilterMembership(NotBlank, PyStrs(xs), a);
        }
      }
      Filter(NotBlank, PyStrs(xs))
    case JStr(t) => ParseLines(t)
    case _ => []
  }

  /** The stored actions of a dictionary item, read from its `actions` entry. */
  function ItemStoredActions(item: Json): seq<string>
    requires item.JObj?
  {
    StoredActions(Get(item.fields, "actions", JNull))
  }

  /**
   * What one list item becomes: a string is a step with no completion and
   * derived actions; a dictionary keeps its `str()`-converted text and
   * completion and its stored actions unless they need a rewrite; anything
   * else is dropped.
   */
  function NormalizeItem(item: Json): (r: Option<ActionStep>)
    ensures item.JStr? ==> r == Some(ActionStep(item.s, "", Derived(item.s)))
    ensures !item.JStr? && !item.JObj? ==> r == None
    ensures item.JObj? ==> r.Some?
    ensures item.JObj? ==> r.value.text == PyStr(Get(item.fields, "text", JStr("")))
    ensures item.JObj? ==> r.value.completion == PyStr(Get(item.fields, "completion", JStr("")))
    ensures item.JObj? && !NeedsRewrite(ItemStoredActions(item)) ==> r.value.actions == ItemStoredActions(item)
    ensures item.JObj? && NeedsRewrite(ItemStoredActions(item)) ==> r.value.actions == Derived(r.value.text)
  {
    match item
    case JStr(s) => Some(ActionStep(s, "", Derived(s)))
    case JObj(f) =>
      var text := PyStr(Get(f, "text", JStr("")));
      var completion := PyStr(Get(f, "completion", JStr("")));
      var stored := StoredActions(Get(f, "actions", JNull));
      Some(ActionStep(text, completion, if NeedsRewrite(stored) then Derived(text) else stored))
    case _ => None
  }

  /** The `out` list the loop of `normalize_steps` builds. */
  function CollectActionSteps(items: seq<Json>): (r: seq<ActionStep>)
    ensures |r| <= |items|
  {
    if items == [] then []
    else
      (match NormalizeItem(items[0]) case Some(st) => [st] case None => []) + CollectActionSteps(items[1..])
  }

  /** `normalize_steps(raw)`: anything that is not a list (None included) yields no steps. */
  function NormalizeActionSteps(raw: Json): (r: seq<ActionStep>)
    ensures !raw.JList? ==> r == []
    ensures raw.JList? ==> |r| <= |raw.items|
  {
    if raw.JList? then CollectActionSteps(raw.items) else []
  }

  /** The steps the loop collects are exactly the normalised forms of the items, in item order. */
  lemma {:induction false} CollectedSteps(items: seq<Json>)
    ensures forall st :: st in CollectActionSteps(items) <==>
      exists i :: 0 <= i < |items| && NormalizeItem(items[i]) == Some(st)
  {
    if items != [] {
      CollectedSteps(items[1..]);
      var head := match NormalizeItem(items[0]) case Some(st) => [st] case None => [];
      assert CollectActionSteps(items) == head + CollectActionSteps(items[1..]);
      forall st ensures st in CollectActionSteps(items) <==>
        exists i :: 0 <= i < |items| && NormalizeItem(items[i]) == Some(st)
      {
        if st in CollectActionSteps(items[1..]) {
          var i :| 0 <= i < |items[1..]| && NormalizeItem(items[1..][i]) == Some(st);
          assert NormalizeItem(items[i + 1]) == Some(st);
        }
        if exists i :: 0 <= i < |items| && NormalizeItem(items[i]) == Some(st) {
          var i :| 0 <= i < |items| && NormalizeItem(items[i]) == Some(st);
          if i > 0 {
            assert NormalizeItem(items[1..][i - 1]) == Some(st);
          }
        }
      }
    }
  }

  /**
   * Stored actions are replaced exactly when they need it: every normalised
   * step keeps stored actions only when they are non-empty and free of
   * placeholders, otherwise it carries the actions derived from its text;
   * and every dictionary item whose stored actions are usable reaches the
   * output with those actions kept.
   */
  lemma NormalizedActionsAreUsable(items: seq<Json>)
    ensures forall st :: st in CollectActionSteps(items) ==>
      !NeedsRewrite(st.actions) || st.actions == Derived(st.text)
    ensures forall i :: 0 <= i < |items| && items[i].JObj? && !NeedsRewrite(ItemStoredActions(items[i])) ==>
      NormalizeItem(items[i]).value in CollectActionSteps(items)
      && NormalizeItem(items[i]).value.actions == ItemStoredActions(items[i])
  {
    CollectedSteps(items);
    forall st | st in CollectActionSteps(items)
      ensures !NeedsRewrite(st.actions) || st.actions == Derived(st.text)
    {
      var i :| 0 <= i < |items| && NormalizeItem(items[i]) == Some(st);
      NormalizedItemUsable(items[i]);
    }
    forall i | 0 <= i < |items| && items[i].JObj? && !NeedsRewrite(ItemStoredActions(items[i]))
      ensures NormalizeItem(items[i]).value in CollectActionSteps(items)
    {
      assert NormalizeItem(items[i]) == Some(NormalizeItem(items[i]).value);
    }
  }

  /** One item's normalised actions are usable stored ones or derived ones. */
  lemma NormalizedItemUsable(item: Json)
    requires NormalizeItem(item).Some?
    ensures var st := NormalizeItem(item).value;
      !NeedsRewrite(st.actions) || st.actions == Derived(st.text)
  {
  }

  /** The stored form of a normalised step. */
  function ActionStepJson(st: ActionStep): Json
  {
    JObj(map["text" := JStr(st.text), "completion" := JStr(st.completion), "actions" := StringsJson(st.actions)])
  }

  function ActionStepsJson(steps: seq<ActionStep>): (r: Json)
    ensures r.JList? && |r.items| == |steps|
    ensures forall i :: 0 <= i < |steps| ==> r.items[i] == ActionStepJson(steps[i])
  {
    JList(seq(|steps|, i requires 0 <= i < |steps| => ActionStepJson(steps[i])))
  }

  /** The value the backfill writes for a row it updates. */
  function Rewritten(raw: Json): Json
  {
    ActionStepsJson(NormalizeActionSteps(raw))
  }

  // ---------------------------------------------------------------------------
  // The needs-update test of backfill

  predicate NotNull(v: Json)
  {
    !v.JNull?
  }

  /** The lines the test joins: `str(x)` of every non-null entry (blank ones included). */
  function FlagTexts(xs: seq<Json>): seq<string>
  {
    PyStrs(Filter(NotNull, xs))
  }

  /**
   * A dictionary step whose actions are missing, null, an empty list, or a
   * list holding placeholder text.
   */
  predicate ItemNeedsUpdate(item: Json)
  {
    item.JObj? &&
    ("actions" !in item.fields ||
     var a := item.fields["actions"];
     a.JNull? || (a.JList? && (a.items == [] || HasPlaceholder(FlagTexts(a.items)))))
  }

  /** A dictionary step with no `actions` key or an empty list there. */
  predicate ActionsMissing(item: Json)
  {
    item.JObj? && ("actions" !in item.fields || item.fields["actions"] == JList([]))
  }

  /** A stored list with at least one step the test flags; non-lists are never updated. */
  predicate NeedsUpdate(raw: Json)
    ensures !raw.JList? ==> !NeedsUpdate(raw)
    ensures NeedsUpdate(raw) ==> exists i :: 0 <= i < |raw.items| && raw.items[i].JObj?
    ensures raw.JList? && (exists i :: 0 <= i < |raw.items| && ActionsMissing(raw.items[i])) ==> NeedsUpdate(raw)
  {
    raw.JList? && exists i :: 0 <= i < |raw.items| && ItemNeedsUpdate(raw.items[i])
  }

  /** The scan over the stored items, stopping at the first flagged one. */
  method RowNeedsUpdate(raw: Json) returns (needs: bool)
    ensures needs == NeedsUpdate(raw)
  {
    if !raw.JList? {
      return false;
    }
    needs := false;
    var i := 0;
    while i < |raw.items|
      invariant 0 <= i <= |raw.items|
      invariant forall j :: 0 <= j < i ==> !ItemNeedsUpdate(raw.items[j])
    {
      var it := raw.items[i];
      if it.JObj? {
        if "actions" !in it.fields {
          needs := true;
          break;
        }
        var a := it.fields["actions"];
        if a.JNull? {
          needs := true;
          break;
        }
        if a.JList? {
          if a.items == [] {
            needs := true;
            break;
          }
          if HasPlaceholder(FlagTexts(a.items)) {
            needs := true;
            break;
          }
        }
      }
      i := i + 1;
    }
  }

  /** A text without a newline occurs around a newline exactly when it occurs on one side of it. */
  lemma ContainsAround(a: string, b: string, p: string)
    requires p != [] && '\n' !in p
    ensures Contains(a + "\n" + b, p) <==> Contains(a, p) || Contains(b, p)
  {
    var s := a + "\n" + b;
    if Contains(s, p) {
      var i: nat :| i <= |s| - |p| && OccursAt(s, p, i);
      assert forall j :: 0 <= j < |p| ==> s[i + j] == s[i..i + |p|][j] == p[j];
      assert s[|a|] == '\n';
      assert i + |p| <= |a| || i > |a|;
      if i + |p| <= |a| {
        assert s[i..i + |p|] == a[i..i + |p|];
        assert OccursAt(a, p, i);
      } else {
        assert s[i..i + |p|] == b[i - |a| - 1..i - |a| - 1 + |p|];
        assert OccursAt(b, p, i - |a| - 1);
      }
    }
    if Contains(a, p) {
      var i: nat :| i <= |a| - |p| && OccursAt(a, p, i);
      assert s[i..i + |p|] == a[i..i + |p|];
      assert OccursAt(s, p, i);
    }
    if Contains(b, p) {
      var i: nat :| i <= |b| - |p| && OccursAt(b, p, i);
      assert s[|a| + 1 + i..|a| + 1 + i + |p|] == b[i..i + |p|];
      assert OccursAt(s, p, |a| + 1 + i);
    }
  }

  /** `"\n".join(xs).lower()` contains `p` exactly when some line, lowered, does. */
  lemma {:induction false} JoinContains(xs: seq<string>, p: string)
    requires p != [] && '\n' !in p
    ensures Contains(Lower(Join("\n", xs)), p) <==> exists i :: 0 <= i < |xs| && Contains(Lower(xs[i]), p)
  {
    if |xs| >= 2 {
      var rest := xs[1..];
      JoinContains(rest, p);
      var a, b := Lower(xs[0]), Lower(Join("\n", rest));
      assert Lower(Join("\n", xs)) == a + "\n" + b;
      ContainsAround(a, b, p);
      if exists i :: 0 <= i < |rest| && Contains(Lower(rest[i]), p) {
        var i :| 0 <= i < |rest| && Contains(Lower(rest[i]), p);
        assert xs[i + 1] == rest[i];
      }
      if exists i :: 0 <= i < |xs| && Contains(Lower(xs[i]), p) {
        var i :| 0 <= i < |xs| && Contains(Lower(xs[i]), p);
        if i > 0 {
          assert rest[i - 1] == xs[i];
        }
      }
    } else if xs == [] {
      assert Lower(Join("\n", xs)) == [];
    }
  }

  lemma PlaceholdersShape()
    ensures forall k :: 0 <= k < |Placeholders| ==>
      Placeholders[k] != [] && '\n' !in Placeholders[k] && !IsSpace(Placeholders[k][0])
  {
  }

  /** The placeholder test holds exactly when one line holds a placeholder. */
  lemma HasPlaceholderPerLine(xs: seq<string>)
    ensures HasPlaceholder(xs) <==> exists i :: 0 <= i < |xs| && ContainsAny(Lower(xs[i]), Placeholders)
  {
    PlaceholdersShape();
    forall k | 0 <= k < |Placeholders| {
      JoinContains(xs, Placeholders[k]);
    }
  }

  /** A blank string holds no placeholder: every placeholder starts with a letter. */
  lemma BlankHasNoPlaceholder(y: string)
    requires !NotBlank(y)
    ensures !ContainsAny(Lower(y), Placeholders)
  {
    PlaceholdersShape();
    var low := Lower(y);
    forall k | 0 <= k < |Placeholders| ensures !Contains(low, Placeholders[k]) {
      var p := Placeholders[k];
      forall i: nat | i + |p| <= |low| ensures !OccursAt(low, p, i) {
        assert IsSpace(y[i]);
        assert low[i..i + |p|][0] == low[i] == y[i];
      }
    }
  }

  /**
   * The needs-update test never flags a step that normalising would keep:
   * a flagged dictionary step always has its actions re-derived from its
   * text.
   */
  lemma FlaggedItemIsRewritten(item: Json)
    requires ItemNeedsUpdate(item)
    ensures NeedsRewrite(StoredActions(Get(item.fields, "actions", JNull)))
    ensures NormalizeItem(item).value.actions == Derived(PyStr(Get(item.fields, "text", JStr(""))))
  {
    var v := Get(item.fields, "actions", JNull);
    if v.JList? && v.items != [] {
      var xs := v.items;
      var flagged := FlagTexts(xs);
      var stored := StoredActions(v);
      HasPlaceholderPerLine(flagged);
      var j :| 0 <= j < |flagged| && ContainsAny(Lower(flagged[j]), Placeholders);
      var y := flagged[j];
      if !NotBlank(y) {
        BlankHasNoPlaceholder(y);
      }
      var x := Filter(NotNull, xs)[j];
      assert x in Filter(NotNull, xs);
      var m :| 0 <= m < |xs| && xs[m] == x;
      assert PyStrs(xs)[m] == y;
      FilterMembership(NotBlank, PyStrs(xs), y);
      var n :| 0 <= n < |stored| && stored[n] == y;
      HasPlaceholderPerLine(stored);
    }
  }

  /** For a stored list of non-blank strings the test agrees with the rewrite exactly. */
  lemma FlagMatchesRewriteOnStrings(item: Json)
    requires item.JObj? && "actions" in item.fields && item.fields["actions"].JList?
    requires forall x :: x in item.fields["actions"].items ==> x.JStr? && NotBlank(x.s)
    ensures ItemNeedsUpdate(item) <==> NeedsRewrite(StoredActions(item.fields["actions"]))
  {
    var xs := item.fields["actions"].items;
    FilterAll(NotNull, xs);
    FilterAll(NotBlank, PyStrs(xs));
  }

  /**
   * The test is narrower than the rewrite: a step stored as a plain string,
   * or with its actions stored as a string, is never flagged, although
   * normalising turns the first into a step object and re-derives the
   * second's actions when its lines are blank.
   */
  lemma FlagIgnoresStringForms(raw: Json)
    requires raw.JList?
    requires forall x :: x in raw.items ==> x.JStr? || (x.JObj? && "actions" in x.fields && x.fields["actions"].JStr?)
    ensures !NeedsUpdate(raw)
    ensures forall i :: 0 <= i < |raw.items| && raw.items[i].JStr? ==>
      NormalizeItem(raw.items[i]) == Some(ActionStep(raw.items[i].s, "", Derived(raw.items[i].s)))
  {
    assert forall i :: 0 <= i < |raw.items| ==> raw.items[i] in raw.items;
  }

  /** `repr([p])` for a plain string `p`. */
  lemma PlainListRepr(p: string)
    requires PlainText(p)
    ensures Repr(JList([JStr(p)])) == "['" + p + "']"
  {
    var inner := JList([JStr(p)]);
    var parts := seq(1, i requires 0 <= i < 1 => Repr(inner.items[i]));
    assert parts == ["'" + p + "'"];
    assert Join(", ", parts) == "'" + p + "'";
  }

  /** Lower-casing the bracketed, quoted form of `p` lower-cases `p` in place. */
  lemma LowerQuoted(p: string)
    ensures Lower("['" + p + "']") == "['" + Lower(p) + "']"
  {
    var a := Lower("['" + p + "']");
    var b := "['" + Lower(p) + "']";
    assert |a| == |b|;
    forall k | 0 <= k < |a| ensures a[k] == b[k] {
      if 2 <= k < |p| + 2 {
        assert ("['" + p + "']")[k] == p[k - 2];
      }
    }
  }

  /**
   * A list nested inside stored actions reaches the test as its `repr`, so
   * placeholder text inside it flags the step: a dictionary step whose
   * actions are `[[p]]`, with `p` a plain string holding a placeholder
   * phrase in any letter case, needs an update.
   */
  lemma NestedPlaceholderFlagged(p: string, text: Json)
    requires PlainText(p) && HasPlaceholder([p])
    ensures ItemNeedsUpdate(JObj(map["text" := text, "actions" := JList([JList([JStr(p)])])]))
  {
    var inner := JList([JStr(p)]);
    var shown := "['" + p + "']";
    PlainListRepr(p);
    assert Filter(NotNull, [inner]) == [inner];
    assert FlagTexts([inner]) == [shown];
    LowerQuoted(p);
    assert Join("\n", [p]) == p;
    assert Join("\n", [shown]) == shown;
    var k :| 0 <= k < |Placeholders| && Contains(Lower(p), Placeholders[k]);
    var i: nat :| i <= |Lower(p)| - |Placeholders[k]| && OccursAt(Lower(p), Placeholders[k], i);
    assert Lower(shown)[i + 2..i + 2 + |Placeholders[k]|] == Lower(p)[i..i + |Placeholders[k]|];
    assert OccursAt(Lower(shown), Placeholders[k], i + 2);
    assert HasPlaceholder([shown]);
  }

  /** The step `{"text": "restart nginx", "actions": [["approved method"]]}` is flagged. */
  lemma ApprovedMethodListFlagged()
    ensures ItemNeedsUpdate(JObj(map["text" := JStr("restart nginx"),
      "actions" := JList([JList([JStr("approved method")])])]))
  {
    var p := "approved method";
    assert PlainText(p);
    assert Lower(p) == p;
    assert Join("\n", [p]) == p;
    assert OccursAt(Lower(p), Placeholders[0], 0);
    NestedPlaceholderFlagged(p, JStr("restart nginx"));
  }

  /** Stored normalised steps are flagged exactly when one of them has no usable actions. */
  lemma {:induction false} StoredStepsFlag(steps: seq<ActionStep>)
    ensures NeedsUpdate(ActionStepsJson(steps)) <==> exists i :: 0 <= i < |steps| && NeedsRewrite(steps[i].actions)
  {
    var items := ActionStepsJson(steps).items;
    forall i | 0 <= i < |steps| ensures ItemNeedsUpdate(items[i]) <==> NeedsRewrite(steps[i].actions) {
      var a := StringsJson(steps[i].actions);
      assert items[i].fields["actions"] == a;
      FilterAll(NotNull, a.items);
      assert FlagTexts(a.items) == steps[i].actions;
    }
  }

  /**
   * The backfill is not idempotent: a step with empty text gets no derived
   * actions, so its rewritten form is flagged again on every later run.
   */
  lemma BackfillRepeats()
    ensures var raw := JList([JObj(map["text" := JStr(""), "actions" := JList([])])]);
      NeedsUpdate(raw) && NeedsUpdate(Rewritten(raw))
  {
    var f := map["text" := JStr(""), "actions" := JList([])];
    var item := JObj(f);
    var raw := JList([item]);
    assert ItemNeedsUpdate(raw.items[0]);
    var st := ActionStep("", "", []);
    assert Get(f, "actions", JNull) == JList([]);
    assert StoredActions(JList([])) == [];
    assert Derived("") == [];
    assert NormalizeItem(item) == Some(st);
    assert CollectActionSteps([item]) == [st] + CollectActionSteps([]);
    var out := Rewritten(raw);
    assert out.items[0] == ActionStepJson(st);
    assert StringsJson([]) == JList([]);
    assert ItemNeedsUpdate(out.items[0]);
  }

  // ---------------------------------------------------------------------------
  // backfill

  /** A row after the pass: its steps rewritten when the test flags them, every other column as it was. */
  function BackfillRow(row: Row<TaskContent>): (r: Row<TaskContent>)
    ensures r.status == row.status && r.meta == row.meta
    ensures r.content == row.content.(steps := r.content.steps)
    ensures !NeedsUpdate(row.content.steps) ==> r == row
  {
    if NeedsUpdate(row.content.steps)
    then row.(content := row.content.(steps := Rewritten(row.content.steps)))
    else row
  }

  /** The `tasks` table after the pass. */
  function Backfilled(t: Table<TaskContent>): (r: Table<TaskContent>)
    ensures r.Keys == t.Keys
    ensures forall k :: k in t ==> r[k] == BackfillRow(t[k])
  {
    AllRowsUpdated(BackfillRow, t)
  }

  /** The pass changes no status and no version, so the table invariants survive it. */
  lemma BackfillKeepsInvariants(t: Table<TaskContent>)
    ensures AtMostOneConfirmed(t) ==> AtMostOneConfirmed(Backfilled(t))
    ensures PositiveVersions(t) ==> PositiveVersions(Backfilled(t))
  {
    StatusPreservingPass(BackfillRow, t);
  }

  /** The number of rows among `ks` the test flags: the `changed` counter. */
  function ChangedCount(t: Table<TaskContent>, ks: seq<Key>): (n: nat)
    ensures n <= |ks|
  {
    if ks == [] then 0
    else
      var k := ks[|ks| - 1];
      ChangedCount(t, ks[..|ks| - 1]) + if k in t && NeedsUpdate(t[k].content.steps) then 1 else 0
  }

  lemma ChangedCountStep(t: Table<TaskContent>, ks: seq<Key>, i: nat)
    requires i < |ks|
    ensures ChangedCount(t, ks[..i + 1]) ==
      ChangedCount(t, ks[..i]) + if ks[i] in t && NeedsUpdate(t[ks[i]].content.steps) then 1 else 0
  {
    assert ks[..i + 1][..i] == ks[..i];
  }

  /** The rows among `ks` the test flags. */
  function FlaggedRows(t: Table<TaskContent>, ks: seq<Key>): set<Key>
  {
    set k | k in ks && k in t && NeedsUpdate(t[k].content.steps)
  }

  /** Over a list without repeats, the counter is the number of flagged rows. */
  lemma {:induction false} ChangedCountIsFlaggedRows(t: Table<TaskContent>, ks: seq<Key>)
    requires NoDuplicates(ks)
    ensures ChangedCount(t, ks) == |FlaggedRows(t, ks)|
  {
    if ks != [] {
      var init, k := ks[..|ks| - 1], ks[|ks| - 1];
      ChangedCountIsFlaggedRows(t, init);
      assert k !in init;
      assert ks == init + [k];
      if k in t && NeedsUpdate(t[k].content.steps) {
        assert FlaggedRows(t, ks) == FlaggedRows(t, init) + {k};
      } else {
        assert FlaggedRows(t, ks) == FlaggedRows(t, init);
      }
    }
  }

  /** The body of the loop of `backfill` for one row: test the stored steps and rewrite them if flagged. */
  method BackfillOne(db: Database, key: Key) returns (needs: bool)
    requires db.Valid() && key in db.tasks
    modifies db
    ensures db.Valid()
    ensures needs == NeedsUpdate(old(db.tasks[key]).content.steps)
    ensures db.tasks == old(db.tasks)[key := BackfillRow(old(db.tasks[key]))]
    ensures db.workflows == old(db.workflows) && db.refRows == old(db.refRows) && db.audit == old(db.audit)
  {
    var row := db.tasks[key];
    var steps := NormalizeActionSteps(row.content.steps);
    needs := RowNeedsUpdate(row.content.steps);
    if needs {
      db.SetTaskRow(key, row.(content := row.content.(steps := ActionStepsJson(steps))));
    } else {
      assert db.tasks == db.tasks[key := row];
    }
  }

  /**
   * `backfill(db_path)`: scans every row in the order `rows` of the SELECT,
   * rewrites the steps of each flagged row and counts the rows scanned and
   * changed.
   */
  method BackfillStepActions(db: Database, rows: seq<Key>) returns (total: nat, changed: nat)
    requires db.Valid()
    requires NoDuplicates(rows) && forall k :: k in rows <==> k in db.tasks
    modifies db
    ensures db.Valid()
    ensures db.tasks == Backfilled(old(db.tasks))
    ensures db.workflows == old(db.workflows) && db.refRows == old(db.refRows) && db.audit == old(db.audit)
    ensures total == |rows| && changed == ChangedCount(old(db.tasks), rows)
  {
    ghost var t := db.tasks;
    total, changed := 0, 0;
    var i := 0;
    while i < |rows|
      invariant 0 <= i <= |rows|
      invariant db.Valid()
      invariant total == i && changed == ChangedCount(t, rows[..i])
      invariant db.tasks == RowsUpdated(BackfillRow, t, rows[..i])
      invariant db.workflows == old(db.workflows) && db.refRows == old(db.refRows) && db.audit == old(db.audit)
    {
      var key := rows[i];
      PrefixStep(rows, i);
      RowsUpdatedAt(BackfillRow, t, rows[..i], key);
      RowsUpdatedStep(BackfillRow, t, rows, i);
      ChangedCountStep(t, rows, i);
      total := total + 1;
      var needs := BackfillOne(db, key);
      if needs {
        changed := changed + 1;
      }
      i := i + 1;
    }
    assert rows[..i] == rows;
    RowsUpdatedAll(BackfillRow, t, rows);
  }
}
