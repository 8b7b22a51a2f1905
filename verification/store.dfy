/**
 * The database and the request handlers that write to it: creating a task,
 * saving a task as a new version, copying a task into a new version,
 * submitting and confirming a task, and the same lifecycle for workflows,
 * whose versions also own an ordered list of task references.
 *
 * Every handler checks the caller's permission first and then the request,
 * in the order the source does; a refused request changes nothing, and an
 * accepted one writes its rows and appends exactly one audit entry.
 */
module Store {
  import opened Base
  import opened Text
  import opened Json
  import opened Steps
  import opened Rbac
  import opened Errors
  import opened Records
  import opened WorkflowRefs

  /** The task-specific columns of a `tasks` row (the `*_json` columns hold decoded values). */
  datatype TaskContent = TaskContent(
    title: string,
    outcome: string,
    facts: Json,
    concepts: Json,
    procedureName: string,
    steps: Json,
    dependencies: Json,
    irreversible: bool,
    assets: Json)

  /** The workflow-specific columns of a `workflows` row. */
  datatype WorkflowContent = WorkflowContent(title: string, objective: string)

  /** A row of `audit_log`; its autoincrement id is its position in the log. */
  datatype AuditEntry = AuditEntry(
    entity: string, recordId: string, version: int, action: string, actor: string, at: string, note: Option<string>)

  /** The fields of the task form posted to create or save a task. */
  datatype TaskForm = TaskForm(
    title: string,
    outcome: string,
    procedureName: string,
    facts: string,
    concepts: string,
    dependencies: string,
    stepTexts: seq<string>,
    stepCompletions: seq<string>,
    irreversible: bool)

  /** `_json_dump` of a list of strings. */
  function StringsJson(xs: seq<string>): (r: Json)
    ensures r.JList? && |r.items| == |xs|
    ensures forall i :: 0 <= i < |xs| ==> r.items[i] == JStr(xs[i])
  {
    JList(seq(|xs|, i requires 0 <= i < |xs| => JStr(xs[i])))
  }

  /** The steps of a form: zipped from the two columns, then required to be complete (400 otherwise). */
  function FormSteps(form: TaskForm): (r: Result<seq<Step>, Error>)
    ensures r.Ok? <==> ValidateSteps(ZipSteps(form.stepTexts, form.stepCompletions)) == Pass
    ensures r.Ok? ==> r.value == ZipSteps(form.stepTexts, form.stepCompletions) && r.value != []
    ensures r.Ok? ==> forall st :: st in r.value ==> CompleteStep(st)
    ensures r.Err? ==> r.error.InvalidSteps?
  {
    var steps := ZipSteps(form.stepTexts, form.stepCompletions);
    match ValidateSteps(steps)
    case Fail(e) => Err(InvalidSteps(e))
    case Pass => Ok(steps)
  }

  /** The columns a form writes: stripped text fields, the line lists of the list fields, and the given assets. */
  function FormContent(form: TaskForm, steps: seq<Step>, assets: Json): TaskContent
  {
    TaskContent(
      Strip(form.title), Strip(form.outcome),
      StringsJson(ParseLines(form.facts)), StringsJson(ParseLines(form.concepts)),
      Strip(form.procedureName), StepsJson(steps), StringsJson(ParseLines(form.dependencies)),
      form.irreversible, assets)
  }

  /** The version note of the save and revise handlers: `f"from v{version}: {note}"`. */
  function FromNote(version: int, note: string): string
  {
    "from v" + IntToString(version) + ": " + note
  }

  /** The status column of a table, which is all that readiness looks at. */
  function Statuses<C>(t: Table<C>): (r: map<Key, Status>)
    ensures r.Keys == t.Keys
    ensures forall k :: k in t ==> r[k] == t[k].status
  {
    map k | k in t :: t[k].status
  }

  /** The number of the version that saving from `version` creates, computed as the handlers do. */
  method NextVersion<C>(t: Table<C>, rid: string, version: int) returns (v: int)
    requires Key(rid, version) in t && PositiveVersions(t)
    ensures v == NewVersionNumber(t, rid, version)
    ensures v >= 2 && Key(rid, v) !in t
    ensures forall w :: Key(rid, w) in t ==> w < v
  {
    var latest := GetLatestVersion(t, rid);
    NewVersionIsFresh(t, rid, version);
    v := (if latest.Some? && latest.value != 0 then latest.value else version) + 1;
  }

  /** Every reference row points at an existing workflow version and an existing task version (the two foreign keys). */
  ghost predicate RowsResolve(rows: seq<RefRow>, workflows: Table<WorkflowContent>, tasks: Table<TaskContent>)
  {
    forall row :: row in rows ==> row.workflow in workflows && row.task in tasks
  }

  /**
   * Confirming a task version deprecates the record's previously confirmed
   * version, so every workflow that references that older version becomes
   * invalid. Workflow confirmation does not recheck readiness, so this is
   * the one way a confirmed workflow can come to reference a deprecated task.
   */
  lemma ConfirmInvalidatesDependents<C>(t: Table<C>, key: Key, now: string, actor: string, refs: seq<Key>, i: nat)
    requires key in t && i < |refs|
    requires refs[i] in t && refs[i] != key && refs[i].recordId == key.recordId && t[refs[i]].status == Confirmed
    ensures DerivedReadiness(Statuses(Confirm(t, key, now, actor)), refs) == Invalid
  {
    ConfirmFacts(t, key, now, actor);
    var s := Statuses(Confirm(t, key, now, actor));
    assert Broken(s, refs[i]);
  }

  // ---------------------------------------------------------------------------
  // The checks each writing handler makes before it writes, in its order

  /**
   * `task_create` refuses a caller without the permission (403), then a form
   * whose steps are incomplete (400); the generated id's first version must
   * be free for the insert to succeed.
   */
  function TaskCreateCheck(role: Role, form: TaskForm, tasks: Table<TaskContent>, recordId: string): (r: Result<seq<Step>, Error>)
    ensures r.Ok? <==> Can(role, "task:create") && FormSteps(form).Ok? && Key(recordId, 1) !in tasks
    ensures r.Ok? ==> r.value == FormSteps(form).value
    ensures !Can(role, "task:create") ==> r == Err(Forbidden("task:create"))
    ensures Can(role, "task:create") && FormSteps(form).Err? ==> r == Err(FormSteps(form).error) && HttpStatus(r.error) == 400
    ensures Can(role, "task:create") && FormSteps(form).Ok? && Key(recordId, 1) in tasks ==> r == Err(DuplicateKey)
  {
    if !Can(role, "task:create") then Err(Forbidden("task:create"))
    else match FormSteps(form)
      case Err(e) => Err(e)
      case Ok(steps) => if Key(recordId, 1) in tasks then Err(DuplicateKey) else Ok(steps)
  }

  /**
   * `task_save` refuses a caller without the permission (403), then
   * incomplete steps (400), then a blank change note (400), then a source
   * version that does not exist (404).
   */
  function TaskSaveCheck(role: Role, form: TaskForm, changeNote: string, tasks: Table<TaskContent>, key: Key): (r: Result<seq<Step>, Error>)
    ensures r.Ok? <==> Can(role, "task:revise") && FormSteps(form).Ok? && Strip(changeNote) != [] && key in tasks
    ensures r.Ok? ==> r.value == FormSteps(form).value
    ensures !Can(role, "task:revise") ==> r == Err(Forbidden("task:revise"))
    ensures Can(role, "task:revise") && FormSteps(form).Err? ==> r == Err(FormSteps(form).error)
    ensures Can(role, "task:revise") && FormSteps(form).Ok? && Strip(changeNote) == [] ==> r == Err(ChangeNoteRequired)
    ensures Can(role, "task:revise") && FormSteps(form).Ok? && Strip(changeNote) != [] && key !in tasks ==> r == Err(NotFound)
  {
    if !Can(role, "task:revise") then Err(Forbidden("task:revise"))
    else match FormSteps(form)
      case Err(e) => Err(e)
      case Ok(steps) =>
        if Strip(changeNote) == [] then Err(ChangeNoteRequired)
        else if key !in tasks then Err(NotFound)
        else Ok(steps)
  }

  /**
   * `workflow_create` refuses a caller without the permission (403), then
   * references that do not parse (400), then references that are not all
   * existing confirmed task versions (409); the generated id's first version
   * must be free for the insert to succeed.
   */
  function WorkflowCreateCheck(role: Role, taskRefs: string, tasks: map<Key, Status>, workflows: Table<WorkflowContent>, recordId: string)
    : (r: Result<seq<Key>, Error>)
    ensures r.Ok? <==> (Can(role, "workflow:create") && TaskRefs(taskRefs).Ok?
      && (forall i :: 0 <= i < |TaskRefs(taskRefs).value| ==> TaskRefs(taskRefs).value[i] in tasks && tasks[TaskRefs(taskRefs).value[i]] == Confirmed)
      && Key(recordId, 1) !in workflows)
    ensures r.Ok? ==> r.value == TaskRefs(taskRefs).value
    ensures !Can(role, "workflow:create") ==> r == Err(Forbidden("workflow:create"))
    ensures Can(role, "workflow:create") && TaskRefs(taskRefs).Err? ==> r == Err(InvalidTaskRefs(TaskRefs(taskRefs).error))
    ensures Can(role, "workflow:create") && TaskRefs(taskRefs).Ok? ==>
      var rule := RefRulesOutcome(DerivedReadiness(tasks, TaskRefs(taskRefs).value));
      rule.Fail? ==> r == Err(rule.error) && HttpStatus(r.error) == 409
  {
    if !Can(role, "workflow:create") then Err(Forbidden("workflow:create"))
    else match TaskRefs(taskRefs)
      case Err(e) => Err(InvalidTaskRefs(e))
      case Ok(refs) =>
        ReadyIffAllConfirmed(tasks, refs);
        match RefRulesOutcome(DerivedReadiness(tasks, refs))
        case Fail(e) => Err(e)
        case Pass => if Key(recordId, 1) in workflows then Err(DuplicateKey) else Ok(refs)
  }

  /**
   * `workflow_revise` refuses a caller without the permission (403), then a
   * blank change note (400), then references that do not parse (400), then a
   * source version that does not exist (404), then references that are not
   * all existing confirmed task versions (409).
   */
  function WorkflowReviseCheck(role: Role, changeNote: string, taskRefs: string, tasks: map<Key, Status>, workflows: Table<WorkflowContent>, key: Key)
    : (r: Result<seq<Key>, Error>)
    ensures r.Ok? <==> (Can(role, "workflow:revise") && Strip(changeNote) != [] && TaskRefs(taskRefs).Ok? && key in workflows
      && (forall i :: 0 <= i < |TaskRefs(taskRefs).value| ==> TaskRefs(taskRefs).value[i] in tasks && tasks[TaskRefs(taskRefs).value[i]] == Confirmed))
    ensures r.Ok? ==> r.value == TaskRefs(taskRefs).value
    ensures !Can(role, "workflow:revise") ==> r == Err(Forbidden("workflow:revise"))
    ensures Can(role, "workflow:revise") && Strip(changeNote) == [] ==> r == Err(ChangeNoteRequired)
    ensures Can(role, "workflow:revise") && Strip(changeNote) != [] && TaskRefs(taskRefs).Err? ==> r == Err(InvalidTaskRefs(TaskRefs(taskRefs).error))
    ensures Can(role, "workflow:revise") && Strip(changeNote) != [] && TaskRefs(taskRefs).Ok? && key !in workflows ==> r == Err(NotFound)
    ensures Can(role, "workflow:revise") && Strip(changeNote) != [] && TaskRefs(taskRefs).Ok? && key in workflows ==>
      var rule := RefRulesOutcome(DerivedReadiness(tasks, TaskRefs(taskRefs).value));
      rule.Fail? ==> r == Err(rule.error) && HttpStatus(r.error) == 409
  {
    if !Can(role, "workflow:revise") then Err(Forbidden("workflow:revise"))
    else if Strip(changeNote) == [] then Err(ChangeNoteRequired)
    else match TaskRefs(taskRefs)
      case Err(e) => Err(InvalidTaskRefs(e))
      case Ok(refs) =>
        if key !in workflows then Err(NotFound)
        else
          ReadyIffAllConfirmed(tasks, refs);
          match RefRulesOutcome(DerivedReadiness(tasks, refs))
          case Fail(e) => Err(e)
          case Pass => Ok(refs)
  }

  /** The database: the two version tables, the workflow reference rows and the audit log. */
  class Database {
    var tasks: Table<TaskContent>
    var workflows: Table<WorkflowContent>
    var refRows: seq<RefRow>
    var audit: seq<AuditEntry>

    /** The invariants the handlers keep. */
    ghost predicate Valid()
      reads this
    {
      AtMostOneConfirmed(tasks) && PositiveVersions(tasks)
      && AtMostOneConfirmed(workflows) && PositiveVersions(workflows)
      && RowsResolve(refRows, workflows, tasks)
    }

    /** `init_db` on an empty file. */
    constructor ()
      ensures Valid()
      ensures tasks == map[] && workflows == map[] && refRows == [] && audit == []
    {
      tasks := map[];
      workflows := map[];
      refRows := [];
      audit := [];
    }

    // -------------------------------------------------------------------------
    // The writes the handlers make

    /** `audit(...)`: appends one entry to the log. */
    method Audit(entry: AuditEntry)
      requires Valid()
      modifies this
      ensures Valid()
      ensures audit == old(audit) + [entry]
      ensures tasks == old(tasks) && workflows == old(workflows) && refRows == old(refRows)
    {
      audit := audit + [entry];
    }

    /** `INSERT INTO tasks`: a draft version under a free key. */
    method InsertTask(key: Key, row: Row<TaskContent>)
      requires Valid() && key !in tasks && key.version >= 1 && row.status == Draft
      modifies this
      ensures Valid()
      ensures tasks == old(tasks)[key := row]
      ensures workflows == old(workflows) && refRows == old(refRows) && audit == old(audit)
      ensures Evolves(old(tasks), tasks)
    {
      InsertDraftKeepsAtMostOneConfirmed(tasks, key, row);
      InsertEvolves(tasks, key, row);
      tasks := tasks[key := row];
    }

    /**
     * `INSERT INTO workflows` and `INSERT INTO workflow_task_refs`: a draft
     * version under a free key and its reference rows numbered from 1. A free
     * workflow key has no rows yet, so reading the rows back gives `refs`.
     */
    method InsertWorkflow(key: Key, row: Row<WorkflowContent>, refs: seq<Key>)
      requires Valid() && key !in workflows && key.version >= 1 && row.status == Draft
      requires forall i :: 0 <= i < |refs| ==> refs[i] in tasks
      modifies this
      ensures Valid()
      ensures workflows == old(workflows)[key := row]
      ensures refRows == old(refRows) + RefRows(key, refs)
      ensures RefsOf(refRows, key) == refs
      ensures tasks == old(tasks) && audit == old(audit)
      ensures Evolves(old(workflows), workflows)
    {
      InsertDraftKeepsAtMostOneConfirmed(workflows, key, row);
      InsertEvolves(workflows, key, row);
      RefRowsReadBack(refRows, key, refs);
      workflows := workflows[key := row];
      refRows := refRows + RefRows(key, refs);
    }

    /** An `UPDATE tasks` that changes statuses and bookkeeping columns only. */
    method UpdateTasks(t: Table<TaskContent>)
      requires Valid() && t.Keys == tasks.Keys && AtMostOneConfirmed(t) && Evolves(tasks, t)
      modifies this
      ensures Valid()
      ensures tasks == t
      ensures workflows == old(workflows) && refRows == old(refRows) && audit == old(audit)
      ensures Evolves(old(tasks), tasks)
    {
      tasks := t;
    }

    /** An `UPDATE tasks ... WHERE record_id=? AND version=?` that keeps the row's status. */
    method SetTaskRow(key: Key, row: Row<TaskContent>)
      requires Valid() && key in tasks && row.status == tasks[key].status
      modifies this
      ensures Valid()
      ensures tasks == old(tasks)[key := row]
      ensures workflows == old(workflows) && refRows == old(refRows) && audit == old(audit)
    {
      tasks := tasks[key := row];
    }

    /** An `UPDATE workflows` that changes statuses and bookkeeping columns only. */
    method UpdateWorkflows(t: Table<WorkflowContent>)
      requires Valid() && t.Keys == workflows.Keys && AtMostOneConfirmed(t) && Evolves(workflows, t)
      modifies this
      ensures Valid()
      ensures workflows == t
      ensures tasks == old(tasks) && refRows == old(refRows) && audit == old(audit)
      ensures Evolves(old(workflows), workflows)
    {
      workflows := t;
    }

    // -------------------------------------------------------------------------
    // Tasks

    /** `task_create`: the new record's first version, a draft with no assets and no review flag. */
    method TaskCreate(role: Role, actor: string, form: TaskForm, recordId: string, now: string) returns (r: Result<Key, Error>)
      requires Valid()
      modifies this
      ensures Valid()
      ensures TaskCreateCheck(role, form, old(tasks), recordId).Err? ==>
        r == Err(TaskCreateCheck(role, form, old(tasks), recordId).error) && unchanged(this)
      ensures TaskCreateCheck(role, form, old(tasks), recordId).Ok? ==>
        var steps := TaskCreateCheck(role, form, old(tasks), recordId).value;
        r == Ok(Key(recordId, 1))
        && tasks == old(tasks)[Key(recordId, 1) := Row(Draft, FormContent(form, steps, JList([])), NewMeta(now, actor, None, false, None))]
        && workflows == old(workflows) && refRows == old(refRows)
        && audit == old(audit) + [AuditEntry("task", recordId, 1, "create", actor, now, None)]
      ensures Evolves(old(tasks), tasks) && Evolves(old(workflows), workflows)
    {
      var check := TaskCreateCheck(role, form, tasks, recordId);
      if check.Err? {
        return Err(check.error);
      }
      var key := Key(recordId, 1);
      InsertTask(key, Row(Draft, FormContent(form, check.value, JList([])), NewMeta(now, actor, None, false, None)));
      Audit(AuditEntry("task", recordId, 1, "create", actor, now, None));
      return Ok(key);
    }

    /**
     * `task_save`: the edited form becomes a new draft version numbered one
     * past the record's latest, carrying the change note and the source
     * version's assets and review flag; the source version is left as it is.
     */
    method TaskSave(role: Role, actor: string, key: Key, form: TaskForm, changeNote: string, now: string) returns (r: Result<Key, Error>)
      requires Valid()
      modifies this
      ensures Valid()
      ensures TaskSaveCheck(role, form, changeNote, old(tasks), key).Err? ==>
        r == Err(TaskSaveCheck(role, form, changeNote, old(tasks), key).error) && unchanged(this)
      ensures TaskSaveCheck(role, form, changeNote, old(tasks), key).Ok? ==>
        var steps := TaskSaveCheck(role, form, changeNote, old(tasks), key).value;
        var src := old(tasks)[key];
        var nk := Key(key.recordId, NewVersionNumber(old(tasks), key.recordId, key.version));
        r == Ok(nk) && nk !in old(tasks)
        && tasks == old(tasks)[nk := Row(Draft, FormContent(form, steps, src.content.assets),
             NewMeta(now, actor, Some(Strip(changeNote)), src.meta.needsReview, src.meta.needsReviewNote))]
        && workflows == old(workflows) && refRows == old(refRows)
        && audit == old(audit) + [AuditEntry("task", key.recordId, nk.version, "new_version", actor, now, Some(FromNote(key.version, Strip(changeNote))))]
      ensures Evolves(old(tasks), tasks) && Evolves(old(workflows), workflows)
    {
      var check := TaskSaveCheck(role, form, changeNote, tasks, key);
      if check.Err? {
        return Err(check.error);
      }
      var note := Strip(changeNote);
      var src := tasks[key];
      var v := NextVersion(tasks, key.recordId, key.version);
      var nk := Key(key.recordId, v);
      InsertTask(nk, Row(Draft, FormContent(form, check.value, src.content.assets),
        NewMeta(now, actor, Some(note), src.meta.needsReview, src.meta.needsReviewNote)));
      Audit(AuditEntry("task", key.recordId, v, "new_version", actor, now, Some(FromNote(key.version, note))));
      return Ok(nk);
    }

    /** `task_new_version`: a draft copy of an existing version's content, numbered one past the latest. */
    method TaskNewVersion(role: Role, actor: string, key: Key, now: string) returns (r: Result<Key, Error>)
      requires Valid()
      modifies this
      ensures Valid()
      ensures !Can(role, "task:revise") ==> r == Err(Forbidden("task:revise"))
      ensures Can(role, "task:revise") && key !in old(tasks) ==> r == Err(NotFound)
      ensures r.Err? ==> unchanged(this)
      ensures r.Ok? <==> Can(role, "task:revise") && key in old(tasks)
      ensures r.Ok? ==>
        var src := old(tasks)[key];
        var nk := Key(key.recordId, NewVersionNumber(old(tasks), key.recordId, key.version));
        r.value == nk && nk !in old(tasks)
        && tasks == old(tasks)[nk := Row(Draft, src.content,
             NewMeta(now, actor, Some("Created new version from v" + IntToString(key.version)), src.meta.needsReview, src.meta.needsReviewNote))]
        && workflows == old(workflows) && refRows == old(refRows)
        && audit == old(audit) + [AuditEntry("task", key.recordId, nk.version, "new_version", actor, now, Some("from v" + IntToString(key.version)))]
      ensures Evolves(old(tasks), tasks) && Evolves(old(workflows), workflows)
    {
      if !Can(role, "task:revise") {
        return Err(Forbidden("task:revise"));
      }
      if key !in tasks {
        return Err(NotFound);
      }
      var src := tasks[key];
      var v := NextVersion(tasks, key.recordId, key.version);
      var nk := Key(key.recordId, v);
      InsertTask(nk, Row(Draft, src.content,
        NewMeta(now, actor, Some("Created new version from v" + IntToString(key.version)), src.meta.needsReview, src.meta.needsReviewNote)));
      Audit(AuditEntry("task", key.recordId, v, "new_version", actor, now, Some("from v" + IntToString(key.version))));
      return Ok(nk);
    }

    /** `task_submit`: a draft version becomes submitted. */
    method TaskSubmit(role: Role, actor: string, key: Key, now: string) returns (r: Outcome<Error>)
      requires Valid()
      modifies this
      ensures Valid()
      ensures !Can(role, "task:submit") ==> r == Fail(Forbidden("task:submit"))
      ensures Can(role, "task:submit") ==> r == SubmitCheck(old(tasks), TaskKind, key)
      ensures r.Fail? ==> unchanged(this)
      ensures r.Pass? ==>
        tasks == MarkSubmitted(old(tasks), key, now, actor)
        && workflows == old(workflows) && refRows == old(refRows)
        && audit == old(audit) + [AuditEntry("task", key.recordId, key.version, "submit", actor, now, None)]
      ensures Evolves(old(tasks), tasks) && Evolves(old(workflows), workflows)
    {
      if !Can(role, "task:submit") {
        return Fail(Forbidden("task:submit"));
      }
      r := SubmitCheck(tasks, TaskKind, key);
      if r.Fail? {
        return;
      }
      SubmitKeepsAtMostOneConfirmed(tasks, key, now, actor);
      TransitionsEvolve(tasks, key, now, actor);
      UpdateTasks(MarkSubmitted(tasks, key, now, actor));
      Audit(AuditEntry("task", key.recordId, key.version, "submit", actor, now, None));
    }

    /** `task_confirm`: a submitted version becomes the record's only confirmed version; the previous one is deprecated. */
    method TaskConfirm(role: Role, actor: string, key: Key, now: string) returns (r: Outcome<Error>)
      requires Valid()
      modifies this
      ensures Valid()
      ensures !Can(role, "task:confirm") ==> r == Fail(Forbidden("task:confirm"))
      ensures Can(role, "task:confirm") ==> r == ConfirmCheck(old(tasks), TaskKind, key)
      ensures r.Fail? ==> unchanged(this)
      ensures r.Pass? ==>
        tasks == Confirm(old(tasks), key, now, actor)
        && workflows == old(workflows) && refRows == old(refRows)
        && audit == old(audit) + [AuditEntry("task", key.recordId, key.version, "confirm", actor, now, None)]
      ensures Evolves(old(tasks), tasks) && Evolves(old(workflows), workflows)
    {
      if !Can(role, "task:confirm") {
        return Fail(Forbidden("task:confirm"));
      }
      r := ConfirmCheck(tasks, TaskKind, key);
      if r.Fail? {
        return;
      }
      ConfirmKeepsAtMostOneConfirmed(tasks, key, now, actor);
      ConfirmFacts(tasks, key, now, actor);
      TransitionsEvolve(tasks, key, now, actor);
      UpdateTasks(Confirm(tasks, key, now, actor));
      Audit(AuditEntry("task", key.recordId, key.version, "confirm", actor, now, None));
    }

    // -------------------------------------------------------------------------
    // Workflows

    /** `workflow_create`: a first draft version whose references are all confirmed task versions, stored in order. */
    method WorkflowCreate(role: Role, actor: string, title: string, objective: string, taskRefs: string, recordId: string, now: string)
      returns (r: Result<Key, Error>)
      requires Valid()
      modifies this
      ensures Valid()
      ensures WorkflowCreateCheck(role, taskRefs, Statuses(old(tasks)), old(workflows), recordId).Err? ==>
        r == Err(WorkflowCreateCheck(role, taskRefs, Statuses(old(tasks)), old(workflows), recordId).error) && unchanged(this)
      ensures WorkflowCreateCheck(role, taskRefs, Statuses(old(tasks)), old(workflows), recordId).Ok? ==>
        var refs := WorkflowCreateCheck(role, taskRefs, Statuses(old(tasks)), old(workflows), recordId).value;
        r == Ok(Key(recordId, 1))
        && workflows == old(workflows)[Key(recordId, 1) := Row(Draft, WorkflowContent(Strip(title), Strip(objective)), NewMeta(now, actor, None, false, None))]
        && refRows == old(refRows) + RefRows(Key(recordId, 1), refs) && RefsOf(refRows, Key(recordId, 1)) == refs
        && tasks == old(tasks)
        && audit == old(audit) + [AuditEntry("workflow", recordId, 1, "create", actor, now, None)]
      ensures Evolves(old(tasks), tasks) && Evolves(old(workflows), workflows)
    {
      if !Can(role, "workflow:create") {
        return Err(Forbidden("workflow:create"));
      }
      var parsed := ParseTaskRefs(taskRefs);
      if parsed.Err? {
        return Err(InvalidTaskRefs(parsed.error));
      }
      var refs := parsed.value;
      var rule := EnforceWorkflowRefRules(Statuses(tasks), refs);
      if rule.Fail? {
        return Err(rule.error);
      }
      var key := Key(recordId, 1);
      if key in workflows {
        return Err(DuplicateKey);
      }
      InsertWorkflow(key, Row(Draft, WorkflowContent(Strip(title), Strip(objective)), NewMeta(now, actor, None, false, None)), refs);
      Audit(AuditEntry("workflow", recordId, 1, "create", actor, now, None));
      return Ok(key);
    }

    /**
     * `workflow_revise`: a new draft version numbered one past the latest,
     * with the edited fields, the change note, the source version's review
     * flag and a fresh list of references, all confirmed, stored in order.
     */
    method WorkflowRevise(role: Role, actor: string, key: Key, title: string, objective: string, taskRefs: string, changeNote: string, now: string)
      returns (r: Result<Key, Error>)
      requires Valid()
      modifies this
      ensures Valid()
      ensures WorkflowReviseCheck(role, changeNote, taskRefs, Statuses(old(tasks)), old(workflows), key).Err? ==>
        r == Err(WorkflowReviseCheck(role, changeNote, taskRefs, Statuses(old(tasks)), old(workflows), key).error) && unchanged(this)
      ensures WorkflowReviseCheck(role, changeNote, taskRefs, Statuses(old(tasks)), old(workflows), key).Ok? ==>
        var refs := WorkflowReviseCheck(role, changeNote, taskRefs, Statuses(old(tasks)), old(workflows), key).value;
        var src := old(workflows)[key];
        var nk := Key(key.recordId, NewVersionNumber(old(workflows), key.recordId, key.version));
        r == Ok(nk) && nk !in old(workflows)
        && workflows == old(workflows)[nk := Row(Draft, WorkflowContent(Strip(title), Strip(objective)),
             NewMeta(now, actor, Some(Strip(changeNote)), src.meta.needsReview, src.meta.needsReviewNote))]
        && refRows == old(refRows) + RefRows(nk, refs) && RefsOf(refRows, nk) == refs
        && tasks == old(tasks)
        && audit == old(audit) + [AuditEntry("workflow", key.recordId, nk.version, "new_version", actor, now, Some(FromNote(key.version, Strip(changeNote))))]
      ensures Evolves(old(tasks), tasks) && Evolves(old(workflows), workflows)
    {
      if !Can(role, "workflow:revise") {
        return Err(Forbidden("workflow:revise"));
      }
      var note := Strip(changeNote);
      if note == [] {
        return Err(ChangeNoteRequired);
      }
      var parsed := ParseTaskRefs(taskRefs);
      if parsed.Err? {
        return Err(InvalidTaskRefs(parsed.error));
      }
      var refs := parsed.value;
      if key !in workflows {
        return Err(NotFound);
      }
      var rule := EnforceWorkflowRefRules(Statuses(tasks), refs);
      if rule.Fail? {
        return Err(rule.error);
      }
      var src := workflows[key];
      var v := NextVersion(workflows, key.recordId, key.version);
      var nk := Key(key.recordId, v);
      InsertWorkflow(nk, Row(Draft, WorkflowContent(Strip(title), Strip(objective)),
        NewMeta(now, actor, Some(note), src.meta.needsReview, src.meta.needsReviewNote)), refs);
      Audit(AuditEntry("workflow", key.recordId, v, "new_version", actor, now, Some(FromNote(key.version, note))));
      return Ok(nk);
    }

    /** `workflow_submit`: a draft workflow version becomes submitted. */
    method WorkflowSubmit(role: Role, actor: string, key: Key, now: string) returns (r: Outcome<Error>)
      requires Valid()
      modifies this
      ensures Valid()
      ensures !Can(role, "workflow:submit") ==> r == Fail(Forbidden("workflow:submit"))
      ensures Can(role, "workflow:submit") ==> r == SubmitCheck(old(workflows), WorkflowKind, key)
      ensures r.Fail? ==> unchanged(this)
      ensures r.Pass? ==>
        workflows == MarkSubmitted(old(workflows), key, now, actor)
        && tasks == old(tasks) && refRows == old(refRows)
        && audit == old(audit) + [AuditEntry("workflow", key.recordId, key.version, "submit", actor, now, None)]
      ensures Evolves(old(tasks), tasks) && Evolves(old(workflows), workflows)
    {
      if !Can(role, "workflow:submit") {
        return Fail(Forbidden("workflow:submit"));
      }
      r := SubmitCheck(workflows, WorkflowKind, key);
      if r.Fail? {
        return;
      }
      SubmitKeepsAtMostOneConfirmed(workflows, key, now, actor);
      TransitionsEvolve(workflows, key, now, actor);
      UpdateWorkflows(MarkSubmitted(workflows, key, now, actor));
      Audit(AuditEntry("workflow", key.recordId, key.version, "submit", actor, now, None));
    }

    /**
     * `workflow_confirm`: a submitted workflow version becomes the record's
     * only confirmed version. Its references are not checked again here.
     */
    method WorkflowConfirm(role: Role, actor: string, key: Key, now: string) returns (r: Outcome<Error>)
      requires Valid()
      modifies this
      ensures Valid()
      ensures !Can(role, "workflow:confirm") ==> r == Fail(Forbidden("workflow:confirm"))
      ensures Can(role, "workflow:confirm") ==> r == ConfirmCheck(old(workflows), WorkflowKind, key)
      ensures r.Fail? ==> unchanged(this)
      ensures r.Pass? ==>
        workflows == Confirm(old(workflows), key, now, actor)
        && tasks == old(tasks) && refRows == old(refRows)
        && audit == old(audit) + [AuditEntry("workflow", key.recordId, key.version, "confirm", actor, now, None)]
      ensures Evolves(old(tasks), tasks) && Evolves(old(workflows), workflows)
    {
      if !Can(role, "workflow:confirm") {
        return Fail(Forbidden("workflow:confirm"));
      }
      r := ConfirmCheck(workflows, WorkflowKind, key);
      if r.Fail? {
        return;
      }
      ConfirmKeepsAtMostOneConfirmed(workflows, key, now, actor);
      ConfirmFacts(workflows, key, now, actor);
      TransitionsEvolve(workflows, key, now, actor);
      UpdateWorkflows(Confirm(workflows, key, now, actor));
      Audit(AuditEntry("workflow", key.recordId, key.version, "confirm", actor, now, None));
    }
  }
}
