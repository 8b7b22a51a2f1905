/**
 * A workflow version is an ordered list of references to task versions,
 * entered one per line as `record_id@version`. Its readiness is derived from
 * the statuses of the referenced task versions, and a workflow version can
 * only be created from references that are all ready.
 */
module WorkflowRefs {
  import opened Base
  import opened Text
  import opened Records
  import opened Errors

  // ---------------------------------------------------------------------------
  // _parse_task_refs

  /** `ln.split("@", 1)` followed by `(rid.strip(), int(ver.strip()))`. */
  function ParseRef(ln: string): (r: Result<Key, RefError>)
    ensures r.Err? ==> r.error == MissingAt(ln) || r.error == BadVersion(ln)
    ensures r.Err? && r.error == MissingAt(ln) <==> '@' !in ln
  {
    if '@' !in ln then Err(MissingAt(ln))
    else
      var at := FirstIndex(ln, '@');
      match ParseInt(Strip(ln[at + 1..]))
      case None => Err(BadVersion(ln))
      case Some(v) => Ok(Key(Strip(ln[..at]), v))
  }

  /** What `_parse_task_refs(text)` returns or raises. */
  function TaskRefs(text: string): (r: Result<seq<Key>, RefError>)
    ensures ParseLines(text) == [] ==> r == Err(NoRefs)
    ensures r.Ok? ==> r.value != []
  {
    match TryMap(ParseRef, ParseLines(text))
    case Err(e) => Err(e)
    case Ok(refs) => if refs == [] then Err(NoRefs) else Ok(refs)
  }

  /**
   * The parse succeeds exactly when every non-blank line parses and there is
   * at least one; the references then come one per non-blank line, in order.
   * With no non-blank line the error is NoRefs; otherwise a failure names the
   * first line that does not parse.
   */
  lemma TaskRefsFacts(text: string)
    ensures TaskRefs(text).Ok? <==>
      ParseLines(text) != [] && forall i :: 0 <= i < |ParseLines(text)| ==> ParseRef(ParseLines(text)[i]).Ok?
    ensures TaskRefs(text).Ok? ==>
      |TaskRefs(text).value| == |ParseLines(text)| &&
      forall i :: 0 <= i < |ParseLines(text)| ==> ParseRef(ParseLines(text)[i]) == Ok(TaskRefs(text).value[i])
    ensures TaskRefs(text) == Err(NoRefs) <==> ParseLines(text) == []
    ensures TaskRefs(text).Err? && TaskRefs(text).error != NoRefs ==>
      exists i :: 0 <= i < |ParseLines(text)| && FirstErrorAt(ParseRef, ParseLines(text), i) &&
        ParseRef(ParseLines(text)[i]) == Err(TaskRefs(text).error)
  {
    var lines := ParseLines(text);
    TryMapFacts(ParseRef, lines);
    var r := TryMap(ParseRef, lines);
    if r.Err? {
      var i :| 0 <= i < |lines| && FirstErrorAt(ParseRef, lines, i) && ParseRef(lines[i]) == Err(r.error);
      assert r.error != NoRefs;
    }
  }

  /** `_parse_task_refs` as the source runs it: a loop over the lines that appends each reference or raises. */
  method ParseTaskRefs(text: string) returns (r: Result<seq<Key>, RefError>)
    ensures r == TaskRefs(text)
  {
    var lines := ParseLines(text);
    var parsed := TryMapLoop(ParseRef, lines);
    match parsed
    case Err(e) =>
      return Err(e);
    case Ok(refs) =>
      if refs == [] {
        return Err(NoRefs);
      }
      return Ok(refs);
  }

  /** `f"{rid}@{ver}"`, one reference per line, as the revise form shows the current references. */
  function FormatRef(k: Key): string
  {
    k.recordId + "@" + IntToString(k.version)
  }

  function FormatRefs(refs: seq<Key>): (r: string)
  {
    Join("\n", seq(|refs|, i requires 0 <= i < |refs| => FormatRef(refs[i])))
  }

  /** A record id that survives being written as `rid@ver` and read back: no '@', no line break, no surrounding blanks. */
  predicate PlainId(rid: string)
  {
    '@' !in rid && NoLineBreak(rid) && Strip(rid) == rid
  }

  /** `str(version)` needs no stripping and has no line break. */
  lemma VersionTextClean(v: int)
    ensures Strip(IntToString(v)) == IntToString(v)
    ensures NoLineBreak(IntToString(v))
  {
    var ver := IntToString(v);
    assert !IsSpace(ver[0]) && !IsSpace(ver[|ver| - 1]);
    StripClean(ver);
  }

  lemma FormattedRefClean(k: Key)
    requires PlainId(k.recordId)
    ensures CleanLine(FormatRef(k))
  {
    var rid, ver := k.recordId, IntToString(k.version);
    var ln := FormatRef(k);
    VersionTextClean(k.version);
    assert ln[|ln| - 1] == ver[|ver| - 1];
    assert rid != [] ==> ln[0] == rid[0] && !IsSpace(rid[0]);
    forall j | 0 <= j < |ln| ensures !IsLineBreak(ln[j]) {
      if j < |rid| {
        assert ln[j] == rid[j];
      } else if j > |rid| {
        assert ln[j] == ver[j - |rid| - 1];
      }
    }
  }

  /** A reference written as `rid@ver` parses back to itself. */
  lemma ParseFormattedRef(k: Key)
    requires PlainId(k.recordId)
    ensures ParseRef(FormatRef(k)) == Ok(k)
  {
    var rid, ver := k.recordId, IntToString(k.version);
    var ln := FormatRef(k);
    assert ln[|rid|] == '@';
    assert FirstIndex(ln, '@') == |rid| by {
      assert forall j :: 0 <= j < |rid| ==> ln[j] == rid[j];
    }
    assert ln[..|rid|] == rid && ln[|rid| + 1..] == ver;
    VersionTextClean(k.version);
    ParseIntToString(k.version);
  }

  /** The references shown on the revise form are read back unchanged by `_parse_task_refs`. */
  lemma TaskRefsRoundTrip(refs: seq<Key>)
    requires refs != [] && forall i :: 0 <= i < |refs| ==> PlainId(refs[i].recordId)
    ensures TaskRefs(FormatRefs(refs)) == Ok(refs)
  {
    var lines := seq(|refs|, i requires 0 <= i < |refs| => FormatRef(refs[i]));
    forall i | 0 <= i < |refs| ensures CleanLine(lines[i]) && ParseRef(lines[i]) == Ok(refs[i]) {
      FormattedRefClean(refs[i]);
      ParseFormattedRef(refs[i]);
    }
    ParseJoinedLines(lines);
    TryMapFacts(ParseRef, lines);
    assert TryMap(ParseRef, lines).value == refs;
  }

  // ---------------------------------------------------------------------------
  // The stored reference rows

  /** A row of workflow_task_refs. */
  datatype RefRow = RefRow(workflow: Key, orderIndex: int, task: Key)

  /** The rows `enumerate(refs, start=1)` inserts for one workflow version: order_index 1..n in input order. */
  function RefRows(workflow: Key, refs: seq<Key>): (r: seq<RefRow>)
    ensures |r| == |refs|
    ensures forall i :: 0 <= i < |refs| ==> r[i] == RefRow(workflow, i + 1, refs[i])
  {
    MapIndexed((n: nat, k: Key) => RefRow(workflow, n, k), refs, 1)
  }

  /** The references of a workflow version, read back from the rows. */
  function RefsOf(rows: seq<RefRow>, workflow: Key): (r: seq<Key>)
    ensures |r| <= |rows|
  {
    var mine := Filter((row: RefRow) => row.workflow == workflow, rows);
    seq(|mine|, i requires 0 <= i < |mine| => mine[i].task)
  }

  /**
   * Reading the rows of a workflow version back in order gives the
   * references that were stored, provided no other row belonged to that
   * version.
   */
  lemma RefRowsReadBack(rows: seq<RefRow>, workflow: Key, refs: seq<Key>)
    requires forall row :: row in rows ==> row.workflow != workflow
    ensures RefsOf(rows + RefRows(workflow, refs), workflow) == refs
  {
    var p := (row: RefRow) => row.workflow == workflow;
    var mine := RefRows(workflow, refs);
    FilterAppend(p, rows, mine);
    if Filter(p, rows) != [] {
      var row := Filter(p, rows)[0];
      FilterMembership(p, rows, row);
      assert false;
    }
    FilterAll(p, mine);
    assert Filter(p, rows + mine) == mine;
    var back := RefsOf(rows + mine, workflow);
    assert |back| == |refs|;
    assert forall i :: 0 <= i < |refs| ==> back[i] == mine[i].task == refs[i];
  }

  // ---------------------------------------------------------------------------
  // workflow_readiness and enforce_workflow_ref_rules

  /** The status the listing shows for a workflow version, derived from the versions it references. */
  datatype Readiness = Ready | AwaitingTaskConfirmation | Invalid

  /** A reference to a task version that does not exist or is deprecated. */
  predicate Broken(tasks: map<Key, Status>, k: Key)
  {
    k !in tasks || tasks[k] == Deprecated
  }

  /** A reference to a task version that exists but is still a draft or submitted. */
  predicate Pending(tasks: map<Key, Status>, k: Key)
  {
    k in tasks && (tasks[k] == Draft || tasks[k] == Submitted)
  }

  /** The readiness rules as the docstring states them: invalid, else awaiting, else ready. */
  function DerivedReadiness(tasks: map<Key, Status>, refs: seq<Key>): (r: Readiness)
    ensures refs == [] ==> r == Ready
    ensures r == Ready ==> forall i :: 0 <= i < |refs| ==> refs[i] in tasks && tasks[refs[i]] == Confirmed
    ensures r == AwaitingTaskConfirmation ==> exists i :: 0 <= i < |refs| && refs[i] in tasks && tasks[refs[i]] != Confirmed
  {
    if exists i :: 0 <= i < |refs| && Broken(tasks, refs[i]) then Invalid
    else if exists i :: 0 <= i < |refs| && Pending(tasks, refs[i]) then AwaitingTaskConfirmation
    else Ready
  }

  /**
   * `workflow_readiness` as the source runs it: returns invalid at the first
   * missing or deprecated reference, otherwise remembers whether any
   * reference was unconfirmed.
   */
  method WorkflowReadiness(tasks: map<Key, Status>, refs: seq<Key>) returns (r: Readiness)
    ensures r == DerivedReadiness(tasks, refs)
  {
    var awaiting := false;
    var i := 0;
    while i < |refs|
      invariant 0 <= i <= |refs|
      invariant forall j :: 0 <= j < i ==> !Broken(tasks, refs[j])
      invariant awaiting <==> exists j :: 0 <= j < i && Pending(tasks, refs[j])
    {
      var k := refs[i];
      if k !in tasks {
        return Invalid;
      }
      var st := tasks[k];
      if st == Deprecated {
        return Invalid;
      }
      if st != Confirmed {
        awaiting := true;
      }
      i := i + 1;
    }
    r := if awaiting then AwaitingTaskConfirmation else Ready;
  }

  /** Ready exactly when every referenced task version exists and is confirmed. */
  lemma ReadyIffAllConfirmed(tasks: map<Key, Status>, refs: seq<Key>)
    ensures DerivedReadiness(tasks, refs) == Ready <==>
      forall i :: 0 <= i < |refs| ==> refs[i] in tasks && tasks[refs[i]] == Confirmed
  {
    if forall i :: 0 <= i < |refs| ==> refs[i] in tasks && tasks[refs[i]] == Confirmed {
      assert !exists i :: 0 <= i < |refs| && Broken(tasks, refs[i]);
      assert !exists i :: 0 <= i < |refs| && Pending(tasks, refs[i]);
    } else {
      var i :| 0 <= i < |refs| && !(refs[i] in tasks && tasks[refs[i]] == Confirmed);
      assert Broken(tasks, refs[i]) || Pending(tasks, refs[i]);
    }
  }

  /** The severity order of readiness values: ready < awaiting < invalid. */
  function Severity(d: Readiness): nat
  {
    match d
    case Ready => 0
    case AwaitingTaskConfirmation => 1
    case Invalid => 2
  }

  /** The more severe of two readiness values. */
  function Worse(a: Readiness, b: Readiness): (r: Readiness)
    ensures r == a || r == b
    ensures Severity(r) >= Severity(a) && Severity(r) >= Severity(b)
  {
    if Severity(a) >= Severity(b) then a else b
  }

  /**
   * Readiness of a concatenation is the worse of the two parts: an invalid
   * reference makes the workflow invalid wherever it sits, even after
   * references that were merely unconfirmed.
   */
  lemma ReadinessOfConcat(tasks: map<Key, Status>, a: seq<Key>, b: seq<Key>)
    ensures DerivedReadiness(tasks, a + b) == Worse(DerivedReadiness(tasks, a), DerivedReadiness(tasks, b))
  {
    var ab := a + b;
    assert forall i :: 0 <= i < |a| ==> ab[i] == a[i];
    assert forall i :: 0 <= i < |b| ==> ab[|a| + i] == b[i];
    if exists i :: 0 <= i < |ab| && Broken(tasks, ab[i]) {
      var i :| 0 <= i < |ab| && Broken(tasks, ab[i]);
      if i >= |a| {
        assert Broken(tasks, b[i - |a|]);
      }
    }
    if exists i :: 0 <= i < |ab| && Pending(tasks, ab[i]) {
      var i :| 0 <= i < |ab| && Pending(tasks, ab[i]);
      if i >= |a| {
        assert Pending(tasks, b[i - |a|]);
      }
    }
  }

  /** Readiness depends only on which task versions are referenced, not on their order or repetition. */
  lemma ReadinessIgnoresOrder(tasks: map<Key, Status>, a: seq<Key>, b: seq<Key>)
    requires forall k :: k in a <==> k in b
    ensures DerivedReadiness(tasks, a) == DerivedReadiness(tasks, b)
  {
    SameMembersSameReadiness(tasks, a, b);
    SameMembersSameReadiness(tasks, b, a);
  }

  lemma SameMembersSameReadiness(tasks: map<Key, Status>, a: seq<Key>, b: seq<Key>)
    requires forall k :: k in a ==> k in b
    ensures (exists i :: 0 <= i < |a| && Broken(tasks, a[i])) ==> exists j :: 0 <= j < |b| && Broken(tasks, b[j])
    ensures (exists i :: 0 <= i < |a| && Pending(tasks, a[i])) ==> exists j :: 0 <= j < |b| && Pending(tasks, b[j])
  {
    if exists i :: 0 <= i < |a| && Broken(tasks, a[i]) {
      var i :| 0 <= i < |a| && Broken(tasks, a[i]);
      assert a[i] in b;
    }
    if exists i :: 0 <= i < |a| && Pending(tasks, a[i]) {
      var i :| 0 <= i < |a| && Pending(tasks, a[i]);
      assert a[i] in b;
    }
  }

  /** The 409 that `enforce_workflow_ref_rules` raises for each readiness other than ready. */
  function RefRulesOutcome(d: Readiness): (r: Outcome<Error>)
    ensures r.Pass? <==> d == Ready
    ensures r.Fail? ==> HttpStatus(r.error) == 409
  {
    match d
    case Invalid => Fail(InvalidRefs)
    case AwaitingTaskConfirmation => Fail(UnconfirmedRefs)
    case Ready => Pass
  }

  /** `enforce_workflow_ref_rules`: a workflow may reference only existing, confirmed task versions. */
  method EnforceWorkflowRefRules(tasks: map<Key, Status>, refs: seq<Key>) returns (r: Outcome<Error>)
    ensures r == RefRulesOutcome(DerivedReadiness(tasks, refs))
    ensures r.Pass? <==> forall i :: 0 <= i < |refs| ==> refs[i] in tasks && tasks[refs[i]] == Confirmed
  {
    var d := WorkflowReadiness(tasks, refs);
    ReadyIffAllConfirmed(tasks, refs);
    r := RefRulesOutcome(d);
  }
}
