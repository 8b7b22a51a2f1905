# Learning Content System — a verified model of its governance core

The Learning Content System keeps **tasks** (one atomic piece of operational
know-how: title, outcome, facts, concepts, and steps that each pair an
action with a completion check) and **workflows** (ordered lists of
references to task versions). Both live in version tables keyed by
`(record_id, version)`. A version moves from draft to submitted to
confirmed. Confirming a version deprecates the record's previously
confirmed one. Every change is a new version, and every write appends an
audit entry. Requests are authorised by a small role matrix (viewer,
author, reviewer, admin): authors write and submit, reviewers confirm.

This project models that core in Dafny and proves properties of it:

- the permission matrix and separation of duties (`rbac.dfy`);
- step normalisation, the form-column zip, the required-steps check and the
  step linter (`steps.dfy`, `lint.dfy`);
- the text and JSON conventions the handlers rely on: `strip`, `lower`,
  `splitlines`, truthiness, `str()` (`text.dfy`, `json.dfy`);
- the page chunker used for PDF import (`chunking.dfy`);
- version lookup, the status lifecycle and the at-most-one-confirmed rule
  (`records.dfy`);
- task-reference parsing, workflow readiness and the composition rule
  (`refs.dfy`);
- the database and the nine writing handlers (`store.dfy`);
- the two maintenance scripts that backfill step actions and task quality
  fields (`action_rules.dfy`, `backfill_step_actions.dfy`,
  `backfill_task_quality.dfy`).

State the source changes in place is modelled in place:

- The database is a class whose handlers are methods over `map` tables.
- The chunker is a class with the buffer fields of `_chunk_text`.
- The backfill loops are methods that walk the rows they selected.
- The quality script's `Stats` is a class of counters.

Each method is proved against a specification function. The properties
that matter are lemmas about those functions:

- the lifecycle keeps at most one confirmed version per record;
- readiness is "ready" exactly when every reference is confirmed, whatever
  their order;
- `_zip_steps` is a zip-longest followed by a filter, and it round-trips
  complete steps;
- task references round-trip through their text form;
- the quality pass is idempotent;
- the step-actions pass rewrites exactly the flagged rows, yet is not
  idempotent.

## Model

| member | source | states |
|---|---|---|
| Rbac.RoleOf | lcs_mvp/app/main.py:104-108 | the cookie's role when it is one of viewer/reviewer/admin, author otherwise (including an unknown name or no cookie) |
| Rbac.UserOf | lcs_mvp/app/main.py:111-113 | the acting user is never empty: the stripped cookie value when it is not blank, else "anon" |
| Rbac.Can | lcs_mvp/app/main.py:116-139 | an admin may do anything, a viewer nothing, and a reviewer exactly the `:confirm` actions |
| Rbac.AdminAllowedEverything | lcs_mvp/app/main.py:116-124 | an admin may perform every action |
| Rbac.ViewerDeniedEverything | lcs_mvp/app/main.py:116-139 | a viewer may perform no action |
| Rbac.ConfirmOnlyReviewer | lcs_mvp/app/main.py:126-127 | a `:confirm` action is allowed exactly to reviewer and admin |
| Rbac.ConfirmIsNotAuthorAction | lcs_mvp/app/main.py:126-136 | a `:confirm` action is never one of the author actions, so the earlier branch decides it |
| Rbac.AuthorActionsOnlyAuthor | lcs_mvp/app/main.py:129-136 | create, revise, submit and `import:pdf` are allowed exactly to author and admin |
| Rbac.OtherActionsOnlyAdmin | lcs_mvp/app/main.py:138-139 | any other action is allowed to admin only |
| Rbac.SeparationOfDuties | lcs_mvp/app/main.py:116-139 | a reviewer can only confirm, and an author can never confirm |
| Text.Strip | lcs_mvp/app/main.py:526-529 | `str.strip`: never longer, no surrounding whitespace, empty exactly for blank input |
| Text.StripTrims | lcs_mvp/app/main.py:526-529 | the stripped text is a slice of the input whose margins on both sides are all whitespace, so only surrounding whitespace is removed |
| Text.StripIdempotent | lcs_mvp/app/main.py:526-529 | stripping twice equals stripping once |
| Text.Lower | lcs_mvp/app/main.py:319 | `lower()` keeps the length and lowers each character |
| Text.SplitLines | lcs_mvp/app/main.py:526-529 | `splitlines` yields lines without line breaks |
| Text.ParseLines | lcs_mvp/app/main.py:526-529 | `parse_lines` yields only non-empty stripped single lines, no more than `splitlines` gave |
| Text.SplitJoin | lcs_mvp/app/main.py:526-529 | joining non-empty break-free lines with newlines and splitting gives them back |
| Text.ParseJoinedLines | lcs_mvp/app/main.py:526-529 | `parse_lines` inverts joining clean lines with newlines |
| Text.ParseIntToString | lcs_mvp/app/main.py:1196 | `int()` reads back what `str()` of an integer printed |
| Json.QuoteFor | lcs_mvp/seed/backfill_step_actions.py:154 | `repr` quotes with double quotes exactly when the string holds a single quote and no double quote |
| Json.EscapeChar | lcs_mvp/seed/backfill_step_actions.py:154 | a character is copied as it is exactly when it is not a backslash, the quote in use or an unprintable Latin-1 character; otherwise it becomes a backslash escape |
| Json.EscapePlain | lcs_mvp/seed/backfill_step_actions.py:154 | a string with nothing to escape is copied unchanged |
| Json.StrRepr | lcs_mvp/seed/backfill_step_actions.py:154 | `repr` of a string is quoted at both ends, and a plain string is its text between single quotes |
| Json.LeastKey | lcs_mvp/seed/backfill_step_actions.py:154 | a non-empty set of keys has a least key in code-point order |
| Json.SortedKeys | lcs_mvp/seed/backfill_step_actions.py:154 | the listed keys are exactly the dictionary's keys, each once |
| Json.Repr | lcs_mvp/seed/backfill_step_actions.py:154 | `repr(v)` is never empty; a string is its quoted form, a list is bracketed and a dictionary braced |
| Json.PyStr | lcs_mvp/app/main.py:306 | `str()` of a string is the string itself, of anything else its `repr`, which is never empty |
| Json.Get | lcs_mvp/app/main.py:306 | `dict.get` returns the stored value for a present key and the default otherwise |
| Json.StrOrEmpty | lcs_mvp/seed/backfill_task_quality.py:208-211 | `str(x or "")`: empty for a falsy value, `str(x)` (non-empty) for a truthy one |
| Steps.StepOfItem | lcs_mvp/app/main.py:302-306 | a legacy string item becomes a step with empty completion; an item that is neither string nor object is dropped |
| Steps.NormalizeSteps | lcs_mvp/app/main.py:293-309 | a non-list gives no steps; a list gives at most one step per item and only non-empty steps |
| Steps.CollectStepsMembership | lcs_mvp/app/main.py:300-308 | a step is kept exactly when some item converts to it and it is non-empty |
| Steps.NormalizeStepsKeepsOrder | lcs_mvp/app/main.py:300-308 | the result is a subsequence of the converted items, in their order |
| Steps.NormalizeStoredSteps | lcs_mvp/app/main.py:293-309 | normalising the stored form of non-empty steps gives the same steps |
| Steps.NormalizeStepsIdempotent | lcs_mvp/app/main.py:293-309 | normalising, storing and normalising again changes nothing |
| Steps.ZipSteps | lcs_mvp/app/main.py:348-361 | at most as many steps as the longer column, each non-empty |
| Steps.Paired | lcs_mvp/app/main.py:351-352 | one step per position both columns have, pairing the i-th text with the i-th completion |
| Steps.Leftover | lcs_mvp/app/main.py:353-359 | the extra entries of the longer column, with the other half of each step empty |
| Steps.PairedLeftoverIsZipLongest | lcs_mvp/app/main.py:351-359 | the paired part followed by the leftover part is exactly zip-longest with empty padding |
| Steps.ZipLongest | lcs_mvp/app/main.py:351-359 | zip-longest: as long as the longer column, each cell from its column or empty past its end |
| Steps.ZipStepsIsZipLongest | lcs_mvp/app/main.py:348-361 | `_zip_steps` is the empty-row filter applied to the zip-longest of the stripped columns |
| Steps.ZipStepsOrderAndLength | lcs_mvp/app/main.py:348-361 | the result keeps the zip-longest order and is no longer than the longer column |
| Steps.ZipStepsClean | lcs_mvp/app/main.py:352-361 | every produced step is non-empty and has stripped text and completion |
| Steps.ZipStepsRoundTrip | lcs_mvp/app/main.py:348-361 | splitting non-empty stripped steps into the two form columns and zipping gives the same steps |
| Steps.FirstIncomplete | lcs_mvp/app/main.py:368-372 | the scan from position k passes exactly when every later step is complete, and otherwise names the first failure |
| Steps.ValidateSteps | lcs_mvp/app/main.py:364-372 | passes exactly for a non-empty list of complete steps; "no steps" exactly for the empty list; otherwise the first incomplete step and its missing half |
| Steps.StepErrorDetail | lcs_mvp/app/main.py:367-372 | every refusal carries a non-empty message |
| Lint.FirstVerb | lcs_mvp/app/main.py:322-330 | the verb found is one the step starts with, and none is found exactly when the step starts with none of them |
| Lint.AtMostOneAbstractVerb | lcs_mvp/app/main.py:269-279 | no step can start with two different abstract verbs |
| Lint.AbstractVerbOrderIrrelevant | lcs_mvp/app/main.py:322-330 | whatever order the verb set is iterated in, the verb reported is the one the step starts with |
| Lint.Traits | lcs_mvp/app/main.py:318-343 | on the stripped, lower-cased text: the abstract verb is absent exactly when no abstract verb starts the text and otherwise is one that does; the conjunction flag holds exactly when an and/then/also/as-well-as phrase occurs; the state-change flag exactly when a state-changing verb starts the text; the check flag exactly when the raw text has a backticked span or a check word occurs |
| Lint.StepWarnings | lcs_mvp/app/main.py:317-343 | at most three warnings per step, all numbered with that step |
| Lint.MultiActionWarning | lcs_mvp/app/main.py:333-336 | the multi-action warning appears exactly when the step contains a conjunction word |
| Lint.CheckSuppressesWarnings | lcs_mvp/app/main.py:324-343 | a step with a confirm/verify/check word gets at most the multi-action warning |
| Lint.UncheckedStepWarnings | lcs_mvp/app/main.py:322-343 | a step without a check word and without a backticked command is warned for its abstract verb, and for a state-change verb exactly when it starts with one |
| Lint.LintSteps | lcs_mvp/app/main.py:312-345 | at most three warnings per normalised step, and none when there are no steps |
| Lint.LintStepsBounds | lcs_mvp/app/main.py:312-345 | at most three warnings per normalised step, numbered 1..n in step order, and every per-step warning is reported |
| Lint.LintStepsOnlyOwn | lcs_mvp/app/main.py:312-345 | every reported warning names an existing step and is one of that step's own warnings |
| Chunking.ChunkSpec | lcs_mvp/app/main.py:387-414 | no more chunks than pages with text (so no more than pages), and none when no page has text |
| Chunking.InsertSorted | lcs_mvp/app/main.py:398 | inserting into a strictly increasing list keeps it strictly increasing with exactly one more member |
| Chunking.SortedUnique | lcs_mvp/app/main.py:398 | `sorted(set(xs))`: strictly increasing with the same members |
| Chunking.EntryOf | lcs_mvp/app/main.py:402-406 | a page yields a block exactly when its text is not blank, the block being its header, a newline and the stripped text |
| Chunking.PackInvariant | lcs_mvp/app/main.py:401-411 | the greedy packing state after any prefix of the blocks keeps its order, limits and greediness |
| Chunking.GroupsFacts | lcs_mvp/app/main.py:387-414 | chunks partition the blocks in order; each chunk is non-empty and within the limit unless it is one oversized block; no chunk could have taken the next one's first block |
| Chunking.JoinedSize | lcs_mvp/app/main.py:398 | a chunk's text is its blocks' sizes plus two characters per separator |
| Chunking.ChunkPages | lcs_mvp/app/main.py:398 | each chunk's page list is strictly increasing and holds exactly the pages of its blocks |
| Chunking.RenderedText | lcs_mvp/app/main.py:398 | a chunk's text is its blocks joined by blank lines, and its length follows from theirs |
| Chunking.ChunkTextIsJoinedBlocks | lcs_mvp/app/main.py:398 | a chunk's text is its blocks joined by blank lines, the trailing `strip` removing nothing |
| Chunking.GroupEntriesFromPages | lcs_mvp/app/main.py:401-406 | every block in a chunk comes from some input page |
| Chunking.Chunker.constructor | lcs_mvp/app/main.py:389-392 | the chunker starts with no chunks and an empty buffer |
| Chunking.Chunker.Flush | lcs_mvp/app/main.py:394-399 | an empty buffer is left alone; a non-empty buffer becomes one more chunk and is emptied |
| Chunking.Chunker.Add | lcs_mvp/app/main.py:407-411 | a block that would overflow a non-empty buffer flushes it first; the block is then buffered and the size grows by its length |
| Chunking.Chunker.AddPage | lcs_mvp/app/main.py:401-411 | handling one page moves the chunker to the packing state one page further |
| Chunking.ChunkText | lcs_mvp/app/main.py:387-414 | the loop returns the chunks the greedy packing of the non-blank pages specifies |
| Errors.HttpStatus | lcs_mvp/app/main.py:37-57 | the status sent with each refusal: 409 exactly for lifecycle and reference conflicts, 400 exactly for invalid input |
| Records.NewMeta | lcs_mvp/app/main.py:838-875 | a new row is created and updated by the actor at the same instant, and is not yet reviewed |
| Records.Versions | lcs_mvp/app/main.py:510-514 | the version numbers stored for a record id |
| Records.LatestVersion | lcs_mvp/app/main.py:510-514 | none exactly when the record has no version; otherwise a stored version no smaller than any other |
| Records.GetLatestVersion | lcs_mvp/app/main.py:510-514 | the `MAX(version)` query returns the latest version or none |
| Records.NewVersionNumber | lcs_mvp/app/main.py:975-977 | the source version plus one when the record has no rows, and always above every positive stored version |
| Records.NewVersionIsFresh | lcs_mvp/app/main.py:975-978 | from an existing version the next version number is latest + 1, larger than every stored version and free |
| Records.RequireCanEdit | lcs_mvp/app/main.py:517-523 | refuses (as immutable) exactly a confirmed status |
| Records.SubmitCheck | lcs_mvp/app/main.py:1074-1091 | submit passes exactly for an existing draft; a missing version is not found, any other status is "only draft" |
| Records.MarkSubmitted | lcs_mvp/app/main.py:1086-1089 | only the addressed row changes: submitted, same content, updated by the actor now |
| Records.SubmitKeepsAtMostOneConfirmed | lcs_mvp/app/main.py:1074-1091 | submitting keeps at most one confirmed version per record |
| Records.ConfirmCheck | lcs_mvp/app/main.py:1094-1126 | confirm passes exactly for an existing submitted version; otherwise not found or "only submitted" |
| Records.DeprecateConfirmed | lcs_mvp/app/main.py:1108-1111 | every confirmed version of the record becomes deprecated; every other row is unchanged |
| Records.MarkConfirmed | lcs_mvp/app/main.py:1113-1120 | only the addressed row changes: confirmed, same content, reviewed and updated at `now` by the actor |
| Records.Confirm | lcs_mvp/app/main.py:1094-1126 | the same rows exist, the addressed version is confirmed with its content, and other records' rows are untouched |
| Records.ConfirmFacts | lcs_mvp/app/main.py:1094-1126 | after confirming, the addressed version is the record's only confirmed one, reviewed and updated at `now` by the actor; the previously confirmed ones are deprecated and updated at `now` by the actor; all other rows are as before |
| Records.ConfirmKeepsAtMostOneConfirmed | lcs_mvp/app/main.py:1094-1126 | confirming keeps at most one confirmed version per record |
| Records.InsertDraftKeepsAtMostOneConfirmed | lcs_mvp/app/main.py:838-875 | inserting a draft keeps at most one confirmed version per record |
| Records.TransitionsEvolve | lcs_mvp/app/main.py:1074-1126 | submit and confirm only move statuses forward and never change a row's content |
| Records.InsertEvolves | lcs_mvp/app/main.py:838-875 | inserting a new version changes no existing row |
| Records.AllRowsUpdated | lcs_mvp/seed/backfill_task_quality.py:178-258 | a pass over the table applies the row update to every row and keeps the keys |
| Records.RowsUpdatedAt | lcs_mvp/seed/backfill_task_quality.py:178-258 | after updating the listed keys, a listed row is updated and any other row is as before |
| Records.RowsUpdatedAll | lcs_mvp/seed/backfill_task_quality.py:176-178 | updating the rows of a duplicate-free list of all keys is the whole-table pass |
| Records.StatusPreservingPass | lcs_mvp/seed/backfill_task_quality.py:241-258 | a pass that keeps every status and key keeps at most one confirmed version and positive versions |
| WorkflowRefs.ParseRef | lcs_mvp/app/main.py:1189-1201 | a line is refused for a missing `@` exactly when it has none, otherwise for a bad version |
| WorkflowRefs.TaskRefs | lcs_mvp/app/main.py:1185-1204 | no non-blank line gives the "no references" error, and a successful parse is never empty |
| WorkflowRefs.TaskRefsFacts | lcs_mvp/app/main.py:1185-1204 | parsing succeeds exactly when there are lines and every line parses, giving one reference per line in order; "no references" exactly when there are no lines; otherwise the first failing line's error |
| WorkflowRefs.ParseTaskRefs | lcs_mvp/app/main.py:1185-1204 | the parsing loop returns what `TaskRefs` specifies |
| WorkflowRefs.ParseFormattedRef | lcs_mvp/app/main.py:1194-1196 | a reference printed as `id@version` parses back to itself, for any id without `@` and surrounding space |
| WorkflowRefs.TaskRefsRoundTrip | lcs_mvp/app/main.py:1185-1204 | printing references one per line and parsing gives them back |
| WorkflowRefs.DerivedReadiness | lcs_mvp/app/main.py:1207-1232 | no references are ready; ready only when every reference is a confirmed task version; awaiting only when some referenced version exists unconfirmed |
| WorkflowRefs.RefRows | lcs_mvp/app/main.py:1297-1304 | one reference row per reference, numbered from 1 in order |
| WorkflowRefs.RefRowsReadBack | lcs_mvp/app/main.py:1297-1304 | the references read back for a new workflow version, in row order, are exactly the ones inserted |
| WorkflowRefs.WorkflowReadiness | lcs_mvp/app/main.py:1207-1232 | the early-return scan computes the specified readiness |
| WorkflowRefs.ReadyIffAllConfirmed | lcs_mvp/app/main.py:1207-1232 | ready exactly when every referenced version exists and is confirmed |
| WorkflowRefs.Worse | lcs_mvp/app/main.py:1220-1232 | combining two verdicts keeps the more severe one |
| WorkflowRefs.ReadinessOfConcat | lcs_mvp/app/main.py:1207-1232 | the verdict for two lists together is the worse of their verdicts |
| WorkflowRefs.ReadinessIgnoresOrder | lcs_mvp/app/main.py:1207-1232 | the verdict depends only on which references are listed, not their order or repetition |
| WorkflowRefs.RefRulesOutcome | lcs_mvp/app/main.py:1240-1250 | passes exactly for a ready verdict; every refusal is a 409 |
| WorkflowRefs.EnforceWorkflowRefRules | lcs_mvp/app/main.py:1235-1250 | passes exactly when every reference exists and is confirmed |
| Store.StringsJson | lcs_mvp/app/main.py:498-499 | the stored list holds the strings in order |
| Store.FormSteps | lcs_mvp/app/main.py:958-962 | the form's steps are accepted exactly when the zipped steps validate, and then each is complete |
| Store.Statuses | lcs_mvp/app/main.py:1221-1226 | the status column of every stored version |
| Store.NextVersion | lcs_mvp/app/main.py:975-978 | `(get_latest_version(...) or version) + 1`: at least 2, free, and above every stored version of the record |
| Store.ConfirmInvalidatesDependents | lcs_mvp/app/main.py:1094-1126 | confirming a new task version makes every workflow that references the previously confirmed one invalid |
| Store.TaskCreateCheck | lcs_mvp/app/main.py:814-880 | accepted exactly with the permission, valid steps and a free id; otherwise 403, the step error (400) or a key clash, checked in that order |
| Store.TaskSaveCheck | lcs_mvp/app/main.py:935-1017 | accepted exactly with the permission, valid steps, a non-blank change note and an existing source; otherwise the first failing check's error |
| Store.WorkflowCreateCheck | lcs_mvp/app/main.py:1253-1308 | accepted exactly with the permission, parsable references that are all confirmed, and a free id; otherwise the first failing check's error |
| Store.WorkflowReviseCheck | lcs_mvp/app/main.py:1377-1447 | accepted exactly with the permission, a non-blank note, parsable references, an existing source and all references confirmed; otherwise the first failing check's error |
| Store.Database.constructor | lcs_mvp/app/main.py:814-880 | an empty database: no versions, no reference rows, no audit entries |
| Store.Database.Audit | lcs_mvp/app/main.py:502-507 | appends exactly one audit entry and changes nothing else |
| Store.Database.InsertTask | lcs_mvp/app/main.py:838-875 | adds one task row and changes nothing else |
| Store.Database.InsertWorkflow | lcs_mvp/app/main.py:1271-1304 | adds the workflow row and its numbered reference rows, which read back as the given references |
| Store.Database.TaskCreate | lcs_mvp/app/main.py:814-880 | a refused request changes nothing; an accepted one inserts draft version 1 with the form's content and one "create" audit entry |
| Store.Database.TaskSave | lcs_mvp/app/main.py:935-1017 | a refused request changes nothing; an accepted one inserts the next version as a draft with the form's content and a "new_version" audit entry noting the source version |
| Store.Database.TaskNewVersion | lcs_mvp/app/main.py:1020-1071 | 403 without permission, 404 for a missing source; otherwise a draft copy of the source under the next version number and one audit entry |
| Store.Database.TaskSubmit | lcs_mvp/app/main.py:1074-1091 | 403 without permission, then the submit check; on success only that row becomes submitted and one audit entry is appended |
| Store.Database.TaskConfirm | lcs_mvp/app/main.py:1094-1126 | 403 without permission, then the confirm check; on success the confirm transition (which deprecates the previous confirmed version) and one audit entry |
| Store.Database.WorkflowCreate | lcs_mvp/app/main.py:1253-1308 | a refused request changes nothing; an accepted one inserts draft version 1, its reference rows in order, and one audit entry |
| Store.Database.WorkflowRevise | lcs_mvp/app/main.py:1377-1447 | a refused request changes nothing; an accepted one inserts the next version as a draft with its reference rows and a "new_version" audit entry |
| Store.Database.WorkflowSubmit | lcs_mvp/app/main.py:1450-1467 | 403 without permission, then the submit check; on success only that row becomes submitted and one audit entry is appended |
| Store.Database.WorkflowConfirm | lcs_mvp/app/main.py:1470-1499 | 403 without permission, then the confirm check (readiness is not rechecked); on success the confirm transition and one audit entry |
| ActionRules.Commands | lcs_mvp/seed/backfill_step_actions.py:63-65 | at most three backticked commands, each non-empty and stripped |
| ActionRules.EditPathAt | lcs_mvp/seed/backfill_step_actions.py:68-71 | an edit/open verb at that word boundary followed by an absolute path of at least two non-space characters |
| ActionRules.EditPathFrom | lcs_mvp/seed/backfill_step_actions.py:68-71 | the match at the leftmost position from which the edit/open pattern matches, or none exactly when it matches nowhere from there on |
| ActionRules.SystemPathFrom | lcs_mvp/seed/backfill_step_actions.py:73-76 | the match at the leftmost position where a system-directory path starts, or none exactly when none starts at or after the position |
| ActionRules.AddUnless | lcs_mvp/seed/backfill_step_actions.py:79-106 | a rule adds its whole canned group exactly when its pattern fires and no earlier action mentions the guarding tool |
| ActionRules.ServiceRulesAddOneGroup | lcs_mvp/seed/backfill_step_actions.py:79-89 | of restart, enable and disable at most the first that fires adds its lines, because each group mentions `systemctl` |
| ActionRules.PackageRulesAddOneGroup | lcs_mvp/seed/backfill_step_actions.py:91-98 | of install and update at most the first that fires adds its lines, because each group mentions `apt-get` |
| StepActions.DeriveActions | lcs_mvp/seed/backfill_step_actions.py:48-134 | the method with its de-duplication loop returns the specified derived actions |
| StepActions.Derived | lcs_mvp/seed/backfill_step_actions.py:48-134 | blank text gives no actions, and the actions have no duplicates |
| StepActions.DerivedFacts | lcs_mvp/seed/backfill_step_actions.py:54-56 | blank text gives no actions; the actions are duplicate-free, non-empty and stripped |
| StepActions.DerivedCommandsFirst | lcs_mvp/seed/backfill_step_actions.py:62-65 | the step's own backticked commands come first, de-duplicated, in their order |
| StepActions.MountStepGetsFstabLines | lcs_mvp/seed/backfill_step_actions.py:111-115 | a step mentioning mount or fstab always gets the four fstab lines |
| StepActions.StoredActions | lcs_mvp/seed/backfill_step_actions.py:152-156 | a list gives exactly the non-blank `str()` of its entries, a string its stripped non-blank lines, anything else nothing |
| StepActions.NormalizeItem | lcs_mvp/seed/backfill_step_actions.py:144-175 | a string step gets empty completion and derived actions; a dictionary gives a step with the `str()` of its text and completion, keeping its stored actions when they need no rewrite and deriving them from the text otherwise; anything else is dropped |
| StepActions.NormalizeActionSteps | lcs_mvp/seed/backfill_step_actions.py:137-177 | anything but a list gives no steps; a list gives at most one step per item |
| StepActions.CollectedSteps | lcs_mvp/seed/backfill_step_actions.py:143-175 | the collected steps are exactly the normalised forms of the items |
| StepActions.NormalizedActionsAreUsable | lcs_mvp/seed/backfill_step_actions.py:147-175 | every normalised step keeps its stored actions only when they are non-empty and free of placeholders, otherwise it carries the derived actions; and every dictionary item with usable stored actions reaches the output with them kept |
| StepActions.NeedsUpdate | lcs_mvp/seed/backfill_step_actions.py:193-222 | a non-list is never flagged; a flagged list has a dictionary step; a dictionary step without `actions` or with an empty list flags the row |
| StepActions.RowNeedsUpdate | lcs_mvp/seed/backfill_step_actions.py:193-222 | the early-exit scan computes the specified needs-update test |
| StepActions.PlainListRepr | lcs_mvp/seed/backfill_step_actions.py:210 | `str()` of a one-element list holding a plain string is that string in quotes and brackets |
| StepActions.NestedPlaceholderFlagged | lcs_mvp/seed/backfill_step_actions.py:210-220 | a placeholder phrase inside a list nested in the stored actions, in any letter case, flags the step |
| StepActions.ApprovedMethodListFlagged | lcs_mvp/seed/backfill_step_actions.py:210-220 | the step `{"text": "restart nginx", "actions": [["approved method"]]}` is flagged |
| StepActions.HasPlaceholderPerLine | lcs_mvp/seed/backfill_step_actions.py:210-220 | a placeholder phrase occurs in the joined, lowered lines exactly when it occurs in one line |
| StepActions.FlaggedItemIsRewritten | lcs_mvp/seed/backfill_step_actions.py:193-222 | a flagged object step always has its actions re-derived from its text |
| StepActions.FlagMatchesRewriteOnStrings | lcs_mvp/seed/backfill_step_actions.py:193-222 | for actions stored as non-blank strings the flag agrees exactly with the rewrite |
| StepActions.FlagIgnoresStringForms | lcs_mvp/seed/backfill_step_actions.py:193-222 | string steps and string-valued actions are never flagged, although normalising would change them |
| StepActions.StoredStepsFlag | lcs_mvp/seed/backfill_step_actions.py:193-222 | normalised steps stored back are flagged exactly when one of them has no usable actions |
| StepActions.BackfillRepeats | lcs_mvp/seed/backfill_step_actions.py:180-235 | a step with empty text and no actions is flagged again after its rewrite, so the pass is not idempotent |
| StepActions.BackfillRow | lcs_mvp/seed/backfill_step_actions.py:224-231 | only the steps column changes, and only for a flagged row |
| StepActions.Backfilled | lcs_mvp/seed/backfill_step_actions.py:180-235 | the table after the pass: every row replaced by its backfilled form |
| StepActions.BackfillKeepsInvariants | lcs_mvp/seed/backfill_step_actions.py:180-235 | the pass keeps at most one confirmed version and positive versions |
| StepActions.ChangedCountIsFlaggedRows | lcs_mvp/seed/backfill_step_actions.py:224-231 | the returned changed count is the number of flagged rows |
| StepActions.BackfillOne | lcs_mvp/seed/backfill_step_actions.py:188-231 | one row: reports the flag and writes the backfilled row, nothing else |
| StepActions.BackfillStepActions | lcs_mvp/seed/backfill_step_actions.py:180-235 | the table becomes the backfilled table; total is the number of rows and changed the number of flagged rows |
| TaskQuality.QualityActions | lcs_mvp/seed/backfill_task_quality.py:47-93 | blank text gives no actions, and the actions have no duplicates |
| TaskQuality.DeriveQualityActions | lcs_mvp/seed/backfill_task_quality.py:47-93 | the de-duplication loop returns the specified actions |
| TaskQuality.QualityActionsFacts | lcs_mvp/seed/backfill_task_quality.py:47-93 | blank text gives none; no duplicates; an action is derived exactly when it is one of the raw rule lines |
| TaskQuality.TopicFacts | lcs_mvp/seed/backfill_task_quality.py:102-118 | no topic facts exactly when no topic keyword occurs |
| TaskQuality.DefaultFactConcept | lcs_mvp/seed/backfill_task_quality.py:96-128 | one to three facts and one to two concepts; the generic fallback exactly when no topic keyword occurs |
| TaskQuality.FstabFactsFirst | lcs_mvp/seed/backfill_task_quality.py:104-106 | an fstab task gets the two fstab facts first and the validate-before-reboot concept first |
| TaskQuality.NoteTextClean | lcs_mvp/seed/backfill_task_quality.py:131-143 | every canned note is non-empty and stripped |
| TaskQuality.NoteFor | lcs_mvp/seed/backfill_task_quality.py:131-143 | the rules in their fixed priority: the editor note exactly when the text names `/etc/` and `edit` or `open`; otherwise the root note exactly when it mentions `apt` or `apt-get`; otherwise the SSH note when it mentions `ssh` with `reload` or `restart`; and no note exactly when none of the three rules fires |
| TaskQuality.MaybeNoteForStep | lcs_mvp/seed/backfill_task_quality.py:131-143 | empty exactly when no note rule applies, and stripped |
| TaskQuality.AptGetImpliesApt | lcs_mvp/seed/backfill_task_quality.py:137 | the `apt-get` test is subsumed by the `apt` test |
| TaskQuality.StepFields | lcs_mvp/seed/backfill_task_quality.py:202-207 | an object step is read as its fields; anything but a string or object is skipped |
| TaskQuality.Field | lcs_mvp/seed/backfill_task_quality.py:208-211 | a field read by the loop is stripped |
| TaskQuality.QualityStep | lcs_mvp/seed/backfill_task_quality.py:234 | a rebuilt step has exactly the text, completion, actions and notes keys |
| TaskQuality.StepActionsFor | lcs_mvp/seed/backfill_task_quality.py:214-222 | actions are filled exactly when the stored list is empty or not a list and something is derived; otherwise the stored list is kept |
| TaskQuality.StepNotesFor | lcs_mvp/seed/backfill_task_quality.py:224-232 | a note is added exactly when the stored note is blank and a rule applies; otherwise the stored note is kept |
| TaskQuality.FixFields | lcs_mvp/seed/backfill_task_quality.py:208-234 | the rebuilt step has the four keys and the stripped text and completion; its actions are a list, the derived actions when filled and the stored list otherwise; its notes are a string, the practical note when added and the stripped stored notes otherwise; its three flags say exactly when actions were filled, notes were missing, and a note was added |
| TaskQuality.FixStep | lcs_mvp/seed/backfill_task_quality.py:202-207 | a step yields a rebuilt step exactly when it is a string or an object |
| TaskQuality.FixFieldsFixed | lcs_mvp/seed/backfill_task_quality.py:208-234 | rebuilding a rebuilt step gives it back with no flags set |
| TaskQuality.ChangedStepsMove | lcs_mvp/seed/backfill_task_quality.py:237-239 | when any step reports a change, the rebuilt list differs from the stored one |
| TaskQuality.FixStepsFixed | lcs_mvp/seed/backfill_task_quality.py:202-235 | rebuilding the rebuilt steps changes nothing, reports no change and counts nothing |
| TaskQuality.FixRow | lcs_mvp/seed/backfill_task_quality.py:180-239 | facts and concepts are filled exactly when missing, empty or not lists: a filled one becomes the list of default texts, a stored non-empty list is kept as it is, and both end up non-empty lists; the steps become the list of rebuilt steps, touched exactly when it differs from the stored one; nothing else changes |
| TaskQuality.ChangedMeansTouched | lcs_mvp/seed/backfill_task_quality.py:186-239 | a row changes exactly when facts or concepts were filled or its steps were touched |
| TaskQuality.FixRowIdempotent | lcs_mvp/seed/backfill_task_quality.py:178-239 | running the row logic on its own output changes nothing and counts nothing |
| TaskQuality.QualityRow | lcs_mvp/seed/backfill_task_quality.py:241-258 | a changed row gets the new content and is marked updated now by "seed_update"; an unchanged row is left alone; status never changes |
| TaskQuality.QualityPassed | lcs_mvp/seed/backfill_task_quality.py:178-258 | the table after the pass: every row replaced by its quality row |
| TaskQuality.QualityPassKeepsInvariants | lcs_mvp/seed/backfill_task_quality.py:178-258 | the pass keeps at most one confirmed version and positive versions |
| TaskQuality.QualityPassIdempotent | lcs_mvp/seed/backfill_task_quality.py:178-258 | a second pass, at any later time, leaves the table exactly as the first pass did |
| TaskQuality.TotalsStep | lcs_mvp/seed/backfill_task_quality.py:178-242 | the counters after one more row are the previous ones plus that row's tally |
| TaskQuality.TotalsBounds | lcs_mvp/seed/backfill_task_quality.py:186-242 | touched steps, filled facts and filled concepts each count at most the touched tasks, which count at most the rows |
| TaskQuality.Stats.constructor | lcs_mvp/seed/backfill_task_quality.py:146-153 | all six counters start at zero |
| TaskQuality.Stats.Record | lcs_mvp/seed/backfill_task_quality.py:186-242 | adds one row's tally to the counters |
| TaskQuality.QualityOne | lcs_mvp/seed/backfill_task_quality.py:179-258 | one row: writes its quality row and records its tally, nothing else |
| TaskQuality.BackfillQuality | lcs_mvp/seed/backfill_task_quality.py:156-263 | the table becomes the quality-passed table and the counters are the totals over the selected rows |
| Base.DedupeFacts | lcs_mvp/seed/backfill_step_actions.py:124-134 | de-duplication keeps exactly the members, has no duplicates and is no longer than its input |
| Base.DedupeFirstOccurrenceOrder | lcs_mvp/seed/backfill_step_actions.py:124-134 | de-duplication keeps the order of first occurrences |
| Base.DedupeLoop | lcs_mvp/seed/backfill_task_quality.py:86-93 | the seen-set loop computes the de-duplication |
| Base.TryMapLoop | lcs_mvp/app/main.py:1187-1201 | the loop that stops at the first failing line computes the specified all-or-first-error map |
| Base.TryMapFacts | lcs_mvp/app/main.py:1187-1201 | succeeds exactly when every element succeeds, with results in order; otherwise fails with the first failing element's error |

## Left out

- Character handling is ASCII: `lower()` lowers only `A`–`Z`, and `\w` / `\b` in the regular expressions are word characters over ASCII letters, digits and `_`, and `int()` (a reference's version) accepts only the ASCII digits `0`–`9`, so a version written in other Unicode decimal digits is refused as a bad version where Python would accept it. `str.isspace` and `splitlines` use the ASCII and common Unicode break characters listed in `text.dfy`.
- Regular expressions are replaced by hand-written matchers for the patterns the code uses. These are word-boundary keywords, backticked spans, edit/open paths and system-directory paths.
- Json.PyStr: `repr` is modelled for `None`, booleans, integers, strings and lists at any depth. A dictionary lists its entries in ascending key order, whereas Python keeps insertion order, which a decoded `map` does not record. A list or dictionary that is a value inside a dictionary is rendered only as `[...]` or `{...}`, because the model cannot recurse into map values. So when such a nested value sits in a step's text, completion or stored actions, the text, the stored action strings and the placeholder test can differ from Python's.
- Json.EscapeChar: characters above U+00FF that Python's `repr` escapes (for example U+2028 or U+FEFF) are copied unchanged.
- JSON numbers with a fraction or exponent have no `Json` constructor, so floats are not modelled.
- JSON text is not parsed. The `*_json` columns hold decoded values, and a column that fails to decode is treated like SQL NULL, the default both scripts use.
- Python's cross-type equality (`1 == True`, `1 == 1.0`) is not modelled. The comparison `norm_steps != steps` is structural equality of decoded values.
- The clock (`utc_now_iso`), generated ids (`uuid4`) and the acting user are parameters of the handlers and scripts.
- One clock reading per handler: the new or changed row and its audit entry share the handler's `now`, whereas `audit()` (lcs_mvp/app/main.py:500-505) reads the clock again in its own connection, so in the code the audit timestamp can be slightly later than the row's.
- The order of `SELECT` results is a parameter (`rows`). Both scripts are proved for any duplicate-free order of all keys.
- HTML rendering, templates, redirects, the read-only pages, the JSON exception handler beyond status and detail, PDF text extraction, the LLM draft generator, `argparse`, printing and the step-actions script's `--both` option are not modelled.
- Database transactions, foreign-key enforcement beyond the stated invariants, and concurrent requests are not modelled. Each handler is one atomic method.
- The two backfill scripts write rows directly and bypass the lifecycle checks, exactly as the scripts do. Only the invariants they keep are proved.
- TaskQuality.Stats.Record: the counters are added per row from that row's tally, not incremented inline inside the loop. The totals are the same.
- Chunking.ChunkText: the page number is an integer already, so `int(p["page"])` is the identity. A missing `page` key is not modelled.
- Store.Database.WorkflowConfirm: readiness is not rechecked at confirmation, as in the code. The code has no confirmation gate, no force option and no dependency-cycle check, so the model has none either.
