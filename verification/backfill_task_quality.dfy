/**
 * The task-quality backfill: it fills empty facts and concepts of a task
 * from keyword defaults, gives every step the four fields text, completion,
 * actions and notes, derives missing actions, adds a rare practical note,
 * and rewrites a row only when something changed, keeping its status.
 */
module TaskQuality {
  import opened Base
  import opened Text
  import opened Json
  import opened ActionRules
  import opened StepActions
  import opened Records
  import opened Store

  // ---------------------------------------------------------------------------
  // _derive_actions

  /** The editor line for the first `edit|open /path` of the step; this variant has no other path rule. */
  function EditOnly(s: string): (r: seq<string>)
    ensures |r| <= 1
  {
    match EditPath(s)
    case Some(p) => [EditorLine(p)]
    case None => []
  }

  /** The `actions` list `_derive_actions` builds for the stripped text `s`: commands, editor line, service and package rules. */
  function QualityRawActions(s: string): seq<string>
  {
    var low := Lower(s);
    PackageRules(low, ServiceRules(low, Commands(s) + EditOnly(s)))
  }

  /** The value `_derive_actions(step_text)` returns. */
  function QualityActions(text: string): (r: seq<string>)
    ensures Strip(text) == [] ==> r == []
    ensures NoDuplicates(r)
  {
    var s := Strip(text);
    if s == [] then []
    else
      DedupeFacts(QualityRawActions(s));
      Dedupe(QualityRawActions(s))
  }

  /** `_derive_actions(step_text)` as the source runs it, ending with its `seen`-set loop. */
  method DeriveQualityActions(text: string) returns (out: seq<string>)
    ensures out == QualityActions(text)
  {
    var s := Strip(text);
    if s == [] {
      return [];
    }
    var actions := QualityRawActions(s);
    out := DedupeLoop(actions);
  }

  /**
   * What `_derive_actions` promises: nothing for a blank step; otherwise
   * each raw action once, the step's own commands first and in order, the
   * rest canned lines.
   */
  lemma QualityActionsFacts(text: string)
    ensures Strip(text) == [] ==> QualityActions(text) == []
    ensures NoDuplicates(QualityActions(text))
    ensures forall a :: a in QualityActions(text) <==> Strip(text) != [] && a in QualityRawActions(Strip(text))
    ensures Strip(text) != [] ==>
      var d := Dedupe(Commands(Strip(text)));
      |d| <= |QualityActions(text)| && QualityActions(text)[..|d|] == d
  {
    var s := Strip(text);
    if s != [] {
      var raw := QualityRawActions(s);
      DedupeFacts(raw);
      var c := Commands(s);
      var p := c + EditOnly(s);
      assert p[..|p|] == p;
      ServiceRulesCanned(p, Lower(s), p);
      PackageRulesCanned(p, Lower(s), ServiceRules(Lower(s), p));
      PrefixOfPrefix(raw, p, c);
      DedupePrefix(c, raw[|c|..]);
    }
  }

  // ---------------------------------------------------------------------------
  // _default_fact_concept

  datatype Fact =
    | FstabPersistentMounts | FstabBadEntries | MountAttaches
    | AptRepositories | UpgradesChangeBehaviour | SshLockout | SystemdUnits
    | CompletionChecks

  function FactText(f: Fact): string
  {
    match f
    case FstabPersistentMounts => "/etc/fstab controls persistent mounts."
    case FstabBadEntries => "Invalid fstab entries can prevent a system from booting cleanly."
    case MountAttaches => "A mount attaches a filesystem to a directory in the tree."
    case AptRepositories => "APT installs and upgrades packages using configured repositories."
    case UpgradesChangeBehaviour => "Upgrades can change service behavior and should be validated."
    case SshLockout => "SSH configuration changes can lock you out if applied incorrectly."
    case SystemdUnits => "systemd unit files control how services start and run."
    case CompletionChecks => "This task should include explicit completion checks."
  }

  datatype Concept =
    | ValidateBeforeReboot | PersistenceVsSession | ConfirmAfterPackages
    | PreserveRollback | StatusAndLogs
    | SeparateIntent

  function ConceptText(c: Concept): string
  {
    match c
    case ValidateBeforeReboot => "Validate mount configuration before reboot."
    case PersistenceVsSession => "Persistence (boot-time) and current-session mounts are separate concerns."
    case ConfirmAfterPackages => "Prefer explicit confirmation checks (version/status) after package changes."
    case PreserveRollback => "Make changes in a way that preserves rollback access."
    case StatusAndLogs => "Use `systemctl status` and logs to confirm service health."
    case SeparateIntent => "Make the work repeatable by separating intent (step) from how (actions) and proof (completion)."
  }

  /** The keyword groups, tested as substrings of the lowered title and outcome. */
  const FstabKeys: seq<string> := ["fstab", "/etc/fstab"]
  const MountKeys: seq<string> := ["mount", "findmnt"]
  const AptKeys: seq<string> := ["apt", "package", "upgrade", "install"]
  const SshKeys: seq<string> := ["ssh", "openssh"]
  const SystemdKeys: seq<string> := ["systemd", "service"]

  function When<T>(b: bool, xs: seq<T>): (r: seq<T>)
    ensures r == if b then xs else []
  {
    if b then xs else []
  }

  predicate AnyTopic(low: string)
  {
    ContainsAny(low, FstabKeys) || ContainsAny(low, MountKeys) || ContainsAny(low, AptKeys)
    || ContainsAny(low, SshKeys) || ContainsAny(low, SystemdKeys)
  }

  /** The facts of every matching group, in the order of the groups. */
  function TopicFacts(low: string): (r: seq<Fact>)
    ensures r == [] <==> !AnyTopic(low)
    ensures CompletionChecks !in r
  {
    When(ContainsAny(low, FstabKeys), [FstabPersistentMounts, FstabBadEntries])
    + When(ContainsAny(low, MountKeys), [MountAttaches])
    + When(ContainsAny(low, AptKeys), [AptRepositories, UpgradesChangeBehaviour])
    + When(ContainsAny(low, SshKeys), [SshLockout])
    + When(ContainsAny(low, SystemdKeys), [SystemdUnits])
  }

  /** The concepts of every matching group, in the order of the groups. */
  function TopicConcepts(low: string): (r: seq<Concept>)
    ensures r == [] <==> !AnyTopic(low)
    ensures SeparateIntent !in r
  {
    When(ContainsAny(low, FstabKeys), [ValidateBeforeReboot])
    + When(ContainsAny(low, MountKeys), [PersistenceVsSession])
    + When(ContainsAny(low, AptKeys), [ConfirmAfterPackages])
    + When(ContainsAny(low, SshKeys), [PreserveRollback])
    + When(ContainsAny(low, SystemdKeys), [StatusAndLogs])
  }

  /** `xs[:n]` */
  function Take<T>(xs: seq<T>, n: nat): (r: seq<T>)
    ensures |r| == if |xs| <= n then |xs| else n
    ensures r == xs[..|r|]
  {
    if |xs| <= n then xs else xs[..n]
  }

  /** The text the keyword groups are tested against. */
  function TopicText(title: string, outcome: string): string
  {
    Lower(Strip(title) + " " + Strip(outcome))
  }

  /**
   * `_default_fact_concept(title, outcome)`: one to three facts and one or
   * two concepts, taken from the matching keyword groups in order, or the
   * single generic fallback of each when no group matches.
   */
  function DefaultFactConcept(title: string, outcome: string): (r: (seq<Fact>, seq<Concept>))
    ensures 1 <= |r.0| <= 3 && 1 <= |r.1| <= 2
    ensures r.0 == [CompletionChecks] <==> !AnyTopic(TopicText(title, outcome))
    ensures r.1 == [SeparateIntent] <==> !AnyTopic(TopicText(title, outcome))
    ensures AnyTopic(TopicText(title, outcome)) ==>
      forall f :: f in r.0 ==> f in TopicFacts(TopicText(title, outcome))
    ensures AnyTopic(TopicText(title, outcome)) ==>
      forall c :: c in r.1 ==> c in TopicConcepts(TopicText(title, outcome))
  {
    var low := TopicText(title, outcome);
    var facts := TopicFacts(low);
    var concepts := TopicConcepts(low);
    var facts' := if facts == [] then [CompletionChecks] else facts;
    var concepts' := if concepts == [] then [SeparateIntent] else concepts;
    var r := (Take(facts', 3), Take(concepts', 2));
    assert facts != [] ==> r.0[0] == facts[0] != CompletionChecks;
    assert concepts != [] ==> r.1[0] == concepts[0] != SeparateIntent;
    r
  }

  /** A title or outcome that mentions fstab always gets the two fstab facts first and the mount-validation concept. */
  lemma FstabFactsFirst(title: string, outcome: string)
    requires ContainsAny(TopicText(title, outcome), FstabKeys)
    ensures DefaultFactConcept(title, outcome).0[..2] == [FstabPersistentMounts, FstabBadEntries]
    ensures DefaultFactConcept(title, outcome).1[0] == ValidateBeforeReboot
  {
  }

  function FactTexts(fs: seq<Fact>): (r: seq<string>)
    ensures |r| == |fs|
  {
    seq(|fs|, i requires 0 <= i < |fs| => FactText(fs[i]))
  }

  function ConceptTexts(cs: seq<Concept>): (r: seq<string>)
    ensures |r| == |cs|
  {
    seq(|cs|, i requires 0 <= i < |cs| => ConceptText(cs[i]))
  }

  // ---------------------------------------------------------------------------
  // _maybe_note_for_step

  datatype Note = EditorNote | RootNote | SshSessionNote

  // Each note is written with its first character apart, which lets the
  // verifier read off both ends of the text.
  const EditorNoteText: string := "I" + "f nano is not available, use another editor (e.g., vim) and preserve file formatting."
  const RootNoteText: string := "I" + "f you are on a minimal system without sudo, run the commands as root."
  const SshSessionNoteText: string := "K" + "eep an existing SSH session open until you confirm the new settings work."

  function NoteText(n: Note): string
  {
    match n
    case EditorNote => EditorNoteText
    case RootNote => RootNoteText
    case SshSessionNote => SshSessionNoteText
  }

  lemma EditorNoteEnds()
    ensures !IsSpace(EditorNoteText[0]) && !IsSpace(EditorNoteText[|EditorNoteText| - 1])
  {
  }

  lemma RootNoteEnds()
    ensures !IsSpace(RootNoteText[0]) && !IsSpace(RootNoteText[|RootNoteText| - 1])
  {
  }

  lemma SshSessionNoteEnds()
    ensures !IsSpace(SshSessionNoteText[0]) && !IsSpace(SshSessionNoteText[|SshSessionNoteText| - 1])
  {
  }

  /** Every note is non-blank and already stripped. */
  lemma NoteTextClean(n: Note)
    ensures NoteText(n) != [] && Strip(NoteText(n)) == NoteText(n)
  {
    match n
    case EditorNote =>
      EditorNoteEnds();
      StripClean(EditorNoteText);
    case RootNote =>
      RootNoteEnds();
      StripClean(RootNoteText);
    case SshSessionNote =>
      SshSessionNoteEnds();
      StripClean(SshSessionNoteText);
  }

  /**
   * The note a step's lowered text calls for, first rule first: editing a
   * file under /etc, then anything mentioning apt, then reloading or
   * restarting ssh.
   */
  function NoteFor(text: string): (r: Option<Note>)
    ensures Contains(Lower(text), "apt") ==> r.Some?
    ensures r == Some(SshSessionNote) ==> Contains(Lower(text), "ssh") && !Contains(Lower(text), "apt")
    ensures r.None? ==> !Contains(Lower(text), "apt") && !Contains(Lower(text), "apt-get")
    ensures r == Some(EditorNote) <==> Contains(Lower(text), "/etc/") && ContainsAny(Lower(text), ["edit", "open"])
    ensures r == Some(RootNote) <==>
      !(Contains(Lower(text), "/etc/") && ContainsAny(Lower(text), ["edit", "open"]))
      && (Contains(Lower(text), "apt-get") || Contains(Lower(text), "apt"))
    ensures r.None? <==>
      !(Contains(Lower(text), "/etc/") && ContainsAny(Lower(text), ["edit", "open"]))
      && !Contains(Lower(text), "apt-get") && !Contains(Lower(text), "apt")
      && !(Contains(Lower(text), "ssh") && ContainsAny(Lower(text), ["reload", "restart"]))
  {
    var low := Lower(text);
    if Contains(low, "/etc/") && ContainsAny(low, ["edit", "open"]) then Some(EditorNote)
    else if Contains(low, "apt-get") || Contains(low, "apt") then Some(RootNote)
    else if Contains(low, "ssh") && ContainsAny(low, ["reload", "restart"]) then Some(SshSessionNote)
    else None
  }

  /** `_maybe_note_for_step(step_text)`: the note's text, or "" when no rule applies. */
  function MaybeNoteForStep(text: string): (r: string)
    ensures r == [] <==> NoteFor(text).None?
    ensures Strip(r) == r
  {
    match NoteFor(text)
    case Some(n) => NoteTextClean(n); NoteText(n)
    case None => ""
  }

  /** The apt-get test is subsumed by the apt test: only the substring "apt" decides the root note. */
  lemma AptGetImpliesApt(low: string)
    requires Contains(low, "apt-get")
    ensures Contains(low, "apt")
  {
    var i: nat :| i <= |low| - 7 && OccursAt(low, "apt-get", i);
    assert low[i..i + 3] == low[i..i + 7][..3];
    assert OccursAt(low, "apt", i);
  }

  // ---------------------------------------------------------------------------
  // One step

  /** A step item as a dictionary: a string becomes one with an empty completion and no actions. */
  function StepFields(st: Json): (r: Option<map<string, Json>>)
    ensures st.JObj? ==> r == Some(st.fields)
    ensures !st.JObj? && !st.JStr? ==> r == None
  {
    match st
    case JStr(s) => Some(map["text" := JStr(s), "completion" := JStr(""), "actions" := JList([])])
    case JObj(f) => Some(f)
    case _ => None
  }

  /** `str(st.get(key, "") or "").strip()` */
  function Field(f: map<string, Json>, key: string): (r: string)
    ensures Strip(r) == r
  {
    StripIdempotent(StrOrEmpty(Get(f, key, JStr(""))));
    Strip(StrOrEmpty(Get(f, key, JStr(""))))
  }

  /** The four fields every normalised step has. */
  const StepKeys: set<string> := {"text", "completion", "actions", "notes"}

  /** The normalised step object with its four fields. */
  function QualityStep(text: string, completion: string, actions: seq<Json>, notes: string): (r: Json)
    ensures r.JObj? && r.fields.Keys == StepKeys
    ensures r.fields["text"] == JStr(text) && r.fields["completion"] == JStr(completion)
    ensures r.fields["actions"] == JList(actions) && r.fields["notes"] == JStr(notes)
  {
    JObj(map["text" := JStr(text), "completion" := JStr(completion), "actions" := JList(actions), "notes" := JStr(notes)])
  }

  /** A normalised step and what normalising it did. */
  datatype StepFix = StepFix(step: Json, actionsFilled: bool, notesMissing: bool, noteAdded: bool)

  predicate StepChanged(fx: StepFix)
  {
    fx.actionsFilled || fx.notesMissing || fx.noteAdded
  }

  /** A step's stored actions: the list if it is one, else none. */
  function StoredStepActions(f: map<string, Json>): seq<Json>
  {
    var stored := Get(f, "actions", JNull);
    if stored.JList? then stored.items else []
  }

  /**
   * The actions a step keeps, and whether they were derived: an empty or
   * missing list is replaced by the derived actions when there are any.
   */
  function StepActionsFor(f: map<string, Json>, text: string): (r: (seq<Json>, bool))
    ensures r.1 <==> StoredStepActions(f) == [] && QualityActions(text) != []
    ensures r.1 ==> r.0 == StringsJson(QualityActions(text)).items && r.0 != []
    ensures !r.1 ==> r.0 == StoredStepActions(f)
  {
    var actions := StoredStepActions(f);
    var derived := if actions == [] then QualityActions(text) else [];
    if derived != [] then (StringsJson(derived).items, true) else (actions, false)
  }

  /**
   * The notes a step keeps, and whether a note was added: blank notes are
   * replaced by the step's practical note when one applies.
   */
  function StepNotesFor(f: map<string, Json>, text: string): (r: (string, bool))
    ensures r.1 <==> Field(f, "notes") == [] && MaybeNoteForStep(text) != []
    ensures r.1 ==> r.0 == MaybeNoteForStep(text)
    ensures !r.1 ==> r.0 == Field(f, "notes")
    ensures Strip(r.0) == r.0
  {
    var notes := Field(f, "notes");
    var note := if notes == [] then MaybeNoteForStep(text) else "";
    if note != [] then (note, true) else (notes, false)
  }

  /** The body of the step loop for a dictionary `f`. */
  function FixFields(f: map<string, Json>): (r: StepFix)
    ensures r.step.JObj? && r.step.fields.Keys == StepKeys
    ensures r.step.fields["text"] == JStr(Field(f, "text"))
    ensures r.step.fields["completion"] == JStr(Field(f, "completion"))
    ensures r.notesMissing <==> "notes" !in f
    ensures r.actionsFilled <==> StoredStepActions(f) == [] && QualityActions(Field(f, "text")) != []
    ensures r.noteAdded <==> Field(f, "notes") == [] && MaybeNoteForStep(Field(f, "text")) != []
    ensures r.actionsFilled ==> r.step.fields["actions"] == StringsJson(QualityActions(Field(f, "text")))
    ensures !r.actionsFilled ==> r.step.fields["actions"] == JList(StoredStepActions(f))
    ensures r.noteAdded ==> r.step.fields["notes"] == JStr(MaybeNoteForStep(Field(f, "text")))
    ensures !r.noteAdded ==> r.step.fields["notes"] == JStr(Field(f, "notes"))
  {
    var text := Field(f, "text");
    var actions := StepActionsFor(f, text);
    var notes := StepNotesFor(f, text);
    StepFix(QualityStep(text, Field(f, "completion"), actions.0, notes.0), actions.1, "notes" !in f, notes.1)
  }

  /** One item of the step loop: strings and dictionaries are normalised, anything else is skipped. */
  function FixStep(st: Json): (r: Option<StepFix>)
    ensures st.JStr? || st.JObj? <==> r.Some?
  {
    match StepFields(st)
    case Some(f) => Some(FixFields(f))
    case None => None
  }

  /** The step loop over the stored items. */
  function FixSteps(items: seq<Json>): (r: seq<StepFix>)
    ensures |r| <= |items|
  {
    if items == [] then []
    else (match FixStep(items[0]) case Some(fx) => [fx] case None => []) + FixSteps(items[1..])
  }

  /** `norm_steps` */
  function StepsOf(fixes: seq<StepFix>): (r: seq<Json>)
    ensures |r| == |fixes|
    ensures forall i :: 0 <= i < |fixes| ==> r[i] == fixes[i].step
  {
    seq(|fixes|, i requires 0 <= i < |fixes| => fixes[i].step)
  }

  lemma StepsOfCons(fx: StepFix, rest: seq<StepFix>)
    ensures StepsOf([fx] + rest) == [fx.step] + StepsOf(rest)
  {
  }

  /** Whether any step of the loop set `changed`. */
  predicate AnyStepChanged(fixes: seq<StepFix>)
  {
    fixes != [] && (StepChanged(fixes[0]) || AnyStepChanged(fixes[1..]))
  }

  function CountActionsFilled(fixes: seq<StepFix>): (n: nat)
    ensures n <= |fixes|
  {
    if fixes == [] then 0 else (if fixes[0].actionsFilled then 1 else 0) + CountActionsFilled(fixes[1..])
  }

  function CountNotesAdded(fixes: seq<StepFix>): (n: nat)
    ensures n <= |fixes|
  {
    if fixes == [] then 0 else (if fixes[0].noteAdded then 1 else 0) + CountNotesAdded(fixes[1..])
  }

  /** A stored string that is already stripped reads back as itself. */
  lemma FieldOfStripped(g: map<string, Json>, key: string, s: string)
    requires key in g && g[key] == JStr(s) && Strip(s) == s
    ensures Field(g, key) == s
  {
  }

  /** Actions that were kept or derived once are kept the second time. */
  lemma StepActionsSettled(f: map<string, Json>, g: map<string, Json>, text: string)
    requires StoredStepActions(g) == StepActionsFor(f, text).0
    ensures StepActionsFor(g, text) == (StepActionsFor(f, text).0, false)
  {
  }

  /** Notes that were kept or added once are kept the second time. */
  lemma StepNotesSettled(f: map<string, Json>, g: map<string, Json>, text: string)
    requires Field(g, "notes") == StepNotesFor(f, text).0
    ensures StepNotesFor(g, text) == (StepNotesFor(f, text).0, false)
  {
  }

  /** A step that is already normalised: normalising it again gives the same step and sets no flag. */
  lemma FixFieldsFixed(f: map<string, Json>)
    ensures FixFields(FixFields(f).step.fields) == StepFix(FixFields(f).step, false, false, false)
  {
    var text := Field(f, "text");
    var completion := Field(f, "completion");
    var actions := StepActionsFor(f, text);
    var notes := StepNotesFor(f, text);
    var g := QualityStep(text, completion, actions.0, notes.0).fields;
    assert FixFields(f).step.fields == g;
    FieldOfStripped(g, "text", text);
    FieldOfStripped(g, "completion", completion);
    FieldOfStripped(g, "notes", notes.0);
    StepActionsSettled(f, g, text);
    StepNotesSettled(f, g, text);
  }

  /** A step whose flags are set is not its own normal form: every flag is visible in the stored steps. */
  lemma ChangedStepMoves(st: Json, fx: StepFix)
    requires FixStep(st) == Some(fx) && StepChanged(fx)
    ensures fx.step != st
  {
  }

  /** The steps a stored value holds: the list, or none. */
  function StoredSteps(v: Json): seq<Json>
  {
    if v.JList? then v.items else []
  }

  /** When the step loop set a flag, `norm_steps != steps` holds as well. */
  lemma {:induction false} ChangedStepsMove(items: seq<Json>)
    requires AnyStepChanged(FixSteps(items))
    ensures StepsOf(FixSteps(items)) != items
  {
    var rest := FixSteps(items[1..]);
    match FixStep(items[0])
    case None =>
      assert FixSteps(items) == rest;
    case Some(fx) =>
      assert FixSteps(items) == [fx] + rest;
      StepsOfCons(fx, rest);
      if StepChanged(fx) {
        ChangedStepMoves(items[0], fx);
      } else {
        assert ([fx] + rest)[1..] == rest;
        ChangedStepsMove(items[1..]);
      }
  }

  /** A step in normal form: normalising it gives it back and sets no flag. */
  predicate Settled(st: Json)
  {
    st.JObj? && FixFields(st.fields) == StepFix(st, false, false, false)
  }

  /** Every step the loop produces is in normal form. */
  lemma {:induction false} FixStepsSettled(items: seq<Json>)
    ensures forall i :: 0 <= i < |FixSteps(items)| ==> Settled(FixSteps(items)[i].step)
  {
    if items != [] {
      FixStepsSettled(items[1..]);
      var rest := FixSteps(items[1..]);
      match FixStep(items[0])
      case None =>
        assert FixSteps(items) == rest;
      case Some(fx) =>
        FixStepSettled(items[0], fx);
        assert FixSteps(items) == [fx] + rest;
        forall i | 0 <= i < |FixSteps(items)|
          ensures Settled(FixSteps(items)[i].step)
        {
          if i > 0 {
            assert FixSteps(items)[i] == rest[i - 1];
          }
        }
    }
  }

  /** The step one item of the loop produces is in normal form. */
  lemma FixStepSettled(st: Json, fx: StepFix)
    requires FixStep(st) == Some(fx)
    ensures Settled(fx.step)
  {
    FixFieldsFixed(StepFields(st).value);
  }

  /** One item in normal form is normalised to itself with no flag set. */
  lemma SettledStepFixed(st: Json)
    requires Settled(st)
    ensures FixStep(st) == Some(StepFix(st, false, false, false))
  {
  }

  /** Steps in normal form are a fixed point of the loop. */
  lemma {:induction false} SettledStepsFixed(steps: seq<Json>)
    requires forall i :: 0 <= i < |steps| ==> Settled(steps[i])
    ensures StepsOf(FixSteps(steps)) == steps
    ensures !AnyStepChanged(FixSteps(steps))
    ensures CountActionsFilled(FixSteps(steps)) == 0 && CountNotesAdded(FixSteps(steps)) == 0
  {
    if steps != [] {
      SettledStepsFixed(steps[1..]);
      var fx := StepFix(steps[0], false, false, false);
      SettledStepFixed(steps[0]);
      var rest := FixSteps(steps[1..]);
      assert FixSteps(steps) == [fx] + rest;
      assert ([fx] + rest)[1..] == rest;
      StepsOfCons(fx, rest);
      assert steps == [steps[0]] + steps[1..];
    }
  }

  /** Normalising normalised steps changes nothing and sets no flag. */
  lemma FixStepsFixed(items: seq<Json>)
    ensures StepsOf(FixSteps(StepsOf(FixSteps(items)))) == StepsOf(FixSteps(items))
    ensures !AnyStepChanged(FixSteps(StepsOf(FixSteps(items))))
    ensures CountActionsFilled(FixSteps(StepsOf(FixSteps(items)))) == 0
    ensures CountNotesAdded(FixSteps(StepsOf(FixSteps(items)))) == 0
  {
    FixStepsSettled(items);
    SettledStepsFixed(StepsOf(FixSteps(items)));
  }

  // ---------------------------------------------------------------------------
  // One task row

  /** `facts and isinstance(facts, list)`: a stored list that needs no default. */
  predicate Filled(v: Json)
  {
    v.JList? && v.items != []
  }

  /** What normalising one row did, with the counters it adds to. */
  datatype RowFix = RowFix(
    content: TaskContent,
    factsFilled: bool,
    conceptsFilled: bool,
    actionsFilled: nat,
    notesAdded: nat,
    stepsTouched: bool,
    changed: bool)

  /**
   * The body of the row loop of `main`: defaults for empty facts and
   * concepts, every step normalised, and whether the row changed.
   */
  function FixRow(c: TaskContent): (r: RowFix)
    ensures r.factsFilled <==> !Filled(c.facts)
    ensures r.conceptsFilled <==> !Filled(c.concepts)
    ensures Filled(r.content.facts) && Filled(r.content.concepts)
    ensures r.content.steps.JList?
    ensures r.stepsTouched <==> r.content.steps.items != StoredSteps(c.steps)
    ensures r.content == c.(facts := r.content.facts, concepts := r.content.concepts, steps := r.content.steps)
    ensures !r.factsFilled ==> r.content.facts == c.facts
    ensures r.factsFilled ==> r.content.facts == StringsJson(FactTexts(DefaultFactConcept(c.title, c.outcome).0))
    ensures !r.conceptsFilled ==> r.content.concepts == c.concepts
    ensures r.conceptsFilled ==> r.content.concepts == StringsJson(ConceptTexts(DefaultFactConcept(c.title, c.outcome).1))
    ensures r.content.steps == JList(StepsOf(FixSteps(StoredSteps(c.steps))))
  {
    var defaults := DefaultFactConcept(c.title, c.outcome);
    var factsFilled := !Filled(c.facts);
    var conceptsFilled := !Filled(c.concepts);
    var items := StoredSteps(c.steps);
    var fixes := FixSteps(items);
    var norm := StepsOf(fixes);
    var touched := norm != items;
    var content := c.(
      facts := if factsFilled then StringsJson(FactTexts(defaults.0)) else c.facts,
      concepts := if conceptsFilled then StringsJson(ConceptTexts(defaults.1)) else c.concepts,
      steps := JList(norm));
    RowFix(content, factsFilled, conceptsFilled, CountActionsFilled(fixes), CountNotesAdded(fixes), touched,
      factsFilled || conceptsFilled || AnyStepChanged(fixes) || touched)
  }

  /** A row changed exactly when a default was filled in or its steps differ from the stored ones. */
  lemma ChangedMeansTouched(c: TaskContent)
    ensures FixRow(c).changed <==> FixRow(c).factsFilled || FixRow(c).conceptsFilled || FixRow(c).stepsTouched
  {
    var items := StoredSteps(c.steps);
    if AnyStepChanged(FixSteps(items)) {
      ChangedStepsMove(items);
    }
  }

  /** Running the row loop on its own output changes nothing and counts nothing. */
  lemma FixRowIdempotent(c: TaskContent)
    ensures var again := FixRow(FixRow(c).content);
      again.content == FixRow(c).content && !again.changed
      && again.actionsFilled == 0 && again.notesAdded == 0
  {
    FixStepsFixed(StoredSteps(c.steps));
  }

  // ---------------------------------------------------------------------------
  // The pass over the tasks table

  /** The actor the pass records as the updater of every row it rewrites. */
  const Actor: string := "seed_update"

  /**
   * A row after the pass: when it changed, its facts, concepts and steps are
   * the normalised ones and it is marked updated at `now` by the pass;
   * otherwise it is left alone. Its status and version never change.
   */
  function QualityRow(now: string, row: Row<TaskContent>): (r: Row<TaskContent>)
    ensures r.status == row.status
    ensures FixRow(row.content).changed ==>
      r.content == FixRow(row.content).content && r.meta == row.meta.(updatedAt := now, updatedBy := Actor)
    ensures !FixRow(row.content).changed ==> r == row
  {
    var fix := FixRow(row.content);
    if fix.changed
    then row.(content := fix.content, meta := row.meta.(updatedAt := now, updatedBy := Actor))
    else row
  }

  /** The `tasks` table after the pass. */
  function QualityPassed(now: string, t: Table<TaskContent>): (r: Table<TaskContent>)
    ensures r.Keys == t.Keys
    ensures forall k :: k in t ==> r[k] == QualityRow(now, t[k])
  {
    AllRowsUpdated(row => QualityRow(now, row), t)
  }

  /** The pass changes no status and no version, so the table invariants survive it. */
  lemma QualityPassKeepsInvariants(now: string, t: Table<TaskContent>)
    ensures AtMostOneConfirmed(t) ==> AtMostOneConfirmed(QualityPassed(now, t))
    ensures PositiveVersions(t) ==> PositiveVersions(QualityPassed(now, t))
  {
    StatusPreservingPass(row => QualityRow(now, row), t);
  }

  /** Running the pass a second time, at any later moment, leaves every row as the first run left it. */
  lemma QualityPassIdempotent(now: string, later: string, t: Table<TaskContent>)
    ensures QualityPassed(later, QualityPassed(now, t)) == QualityPassed(now, t)
  {
    var once := QualityPassed(now, t);
    forall k | k in t
      ensures QualityRow(later, once[k]) == once[k]
    {
      FixRowIdempotent(t[k].content);
    }
  }

  /** The six counters of `Stats`. */
  datatype Tally = Tally(
    tasksTouched: nat,
    stepsTouched: nat,
    factsFilled: nat,
    conceptsFilled: nat,
    actionsFilled: nat,
    notesAdded: nat)

  function Ord(b: bool): nat
  {
    if b then 1 else 0
  }

  /** What one row adds to the counters. */
  function RowTally(fix: RowFix): Tally
  {
    Tally(Ord(fix.changed), Ord(fix.stepsTouched), Ord(fix.factsFilled), Ord(fix.conceptsFilled),
      fix.actionsFilled, fix.notesAdded)
  }

  function Plus(a: Tally, b: Tally): Tally
  {
    Tally(a.tasksTouched + b.tasksTouched, a.stepsTouched + b.stepsTouched, a.factsFilled + b.factsFilled,
      a.conceptsFilled + b.conceptsFilled, a.actionsFilled + b.actionsFilled, a.notesAdded + b.notesAdded)
  }

  /** The counters after the rows `ks` of `t` have been processed in that order. */
  function Totals(t: Table<TaskContent>, ks: seq<Key>): Tally
  {
    if ks == [] then Tally(0, 0, 0, 0, 0, 0)
    else
      var k := ks[|ks| - 1];
      var r := Totals(t, ks[..|ks| - 1]);
      if k in t then Plus(r, RowTally(FixRow(t[k].content))) else r
  }

  /** One more row processed. */
  lemma TotalsStep(t: Table<TaskContent>, ks: seq<Key>, i: nat)
    requires i < |ks| && ks[i] in t
    ensures Totals(t, ks[..i + 1]) == Plus(Totals(t, ks[..i]), RowTally(FixRow(t[ks[i]].content)))
  {
    assert ks[..i + 1][..i] == ks[..i];
  }

  /**
   * The counters agree with each other: a row whose steps were touched or
   * whose facts or concepts were filled is a touched task, and no more
   * tasks are touched than were read.
   */
  lemma {:induction false} TotalsBounds(t: Table<TaskContent>, ks: seq<Key>)
    ensures var s := Totals(t, ks);
      s.stepsTouched <= s.tasksTouched && s.factsFilled <= s.tasksTouched
      && s.conceptsFilled <= s.tasksTouched && s.tasksTouched <= |ks|
  {
    if ks != [] {
      var k := ks[|ks| - 1];
      TotalsBounds(t, ks[..|ks| - 1]);
      if k in t {
        ChangedMeansTouched(t[k].content);
      }
    }
  }

  /** The `Stats` object `main` fills in while it scans the rows. */
  class Stats {
    var tasksTouched: nat
    var stepsTouched: nat
    var factsFilled: nat
    var conceptsFilled: nat
    var actionsFilled: nat
    var notesAdded: nat

    constructor ()
      ensures Counts() == Tally(0, 0, 0, 0, 0, 0)
    {
      tasksTouched, stepsTouched, factsFilled := 0, 0, 0;
      conceptsFilled, actionsFilled, notesAdded := 0, 0, 0;
    }

    function Counts(): Tally
      reads this
    {
      Tally(tasksTouched, stepsTouched, factsFilled, conceptsFilled, actionsFilled, notesAdded)
    }

    /** The increments the body of the row loop makes for one row. */
    method Record(fix: RowFix)
      modifies this
      ensures Counts() == Plus(old(Counts()), RowTally(fix))
    {
      if fix.factsFilled {
        factsFilled := factsFilled + 1;
      }
      if fix.conceptsFilled {
        conceptsFilled := conceptsFilled + 1;
      }
      actionsFilled := actionsFilled + fix.actionsFilled;
      notesAdded := notesAdded + fix.notesAdded;
      if fix.stepsTouched {
        stepsTouched := stepsTouched + 1;
      }
      if fix.changed {
        tasksTouched := tasksTouched + 1;
      }
    }
  }

  /** The body of the row loop for one row: normalise it, count, and write it back if it changed. */
  method QualityOne(db: Database, stats: Stats, key: Key, now: string)
    requires db.Valid() && key in db.tasks
    modifies db, stats
    ensures db.Valid()
    ensures db.tasks == old(db.tasks)[key := QualityRow(now, old(db.tasks[key]))]
    ensures db.workflows == old(db.workflows) && db.refRows == old(db.refRows) && db.audit == old(db.audit)
    ensures stats.Counts() == Plus(old(stats.Counts()), RowTally(FixRow(old(db.tasks[key]).content)))
  {
    var row := db.tasks[key];
    var fix := FixRow(row.content);
    stats.Record(fix);
    if fix.changed {
      db.SetTaskRow(key, row.(content := fix.content, meta := row.meta.(updatedAt := now, updatedBy := Actor)));
    } else {
      assert db.tasks == db.tasks[key := row];
    }
  }

  /**
   * `main`: scans every row in the order `rows` of the SELECT, normalises
   * it, rewrites the rows that changed and returns the counters.
   */
  method BackfillQuality(db: Database, rows: seq<Key>, now: string) returns (stats: Stats)
    requires db.Valid()
    requires NoDuplicates(rows) && forall k :: k in rows <==> k in db.tasks
    modifies db
    ensures fresh(stats)
    ensures db.Valid()
    ensures db.tasks == QualityPassed(now, old(db.tasks))
    ensures db.workflows == old(db.workflows) && db.refRows == old(db.refRows) && db.audit == old(db.audit)
    ensures stats.Counts() == Totals(old(db.tasks), rows)
  {
    ghost var t := db.tasks;
    ghost var f := row => QualityRow(now, row);
    stats := new Stats();
    var i := 0;
    while i < |rows|
      invariant 0 <= i <= |rows|
      invariant db.Valid()
      invariant stats.Counts() == Totals(t, rows[..i])
      invariant db.tasks == RowsUpdated(f, t, rows[..i])
      invariant db.workflows == old(db.workflows) && db.refRows == old(db.refRows) && db.audit == old(db.audit)
    {
      var key := rows[i];
      PrefixStep(rows, i);
      RowsUpdatedAt(f, t, rows[..i], key);
      RowsUpdatedStep(f, t, rows, i);
      TotalsStep(t, rows, i);
      QualityOne(db, stats, key, now);
      i := i + 1;
    }
    assert rows[..i] == rows;
    RowsUpdatedAll(f, t, rows);
  }
}
