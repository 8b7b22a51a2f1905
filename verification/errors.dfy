/**
 * The refusals of the request handlers. Each handler stops at its first
 * failing check and raises an HTTP error; the model returns the reason and
 * `HttpStatus` gives the status code the handler raises for it.
 */
module Errors {
  import opened Text
  import opened Steps

  /** Which of the two version tables an operation works on. */
  datatype Kind = TaskKind | WorkflowKind

  /** The entity name used in permissions ("task:submit") and in audit rows. */
  function Entity(kind: Kind): string
  {
    match kind
    case TaskKind => "task"
    case WorkflowKind => "workflow"
  }

  /** Why a list of task references was refused. */
  datatype RefError = MissingAt(line: string) | BadVersion(line: string) | NoRefs

  datatype Error =
    | Forbidden(permission: string)   // require(role, action)
    | NotFound                        // the addressed version does not exist
    | NotDraft(kind: Kind)            // submit of a version that is not a draft
    | NotSubmitted(kind: Kind)        // confirm of a version that is not submitted
    | Immutable                       // require_can_edit on a confirmed version
    | InvalidRefs                     // a referenced task version is missing or deprecated
    | UnconfirmedRefs                 // a referenced task version is not yet confirmed
    | InvalidSteps(step: StepError)   // _validate_steps_required
    | ChangeNoteRequired              // a blank change note on a new version
    | InvalidTaskRefs(ref: RefError)  // _parse_task_refs
    | DuplicateKey                    // an INSERT under an existing primary key

  function HttpStatus(e: Error): (code: int)
    ensures code == 409 <==> e.NotDraft? || e.NotSubmitted? || e.Immutable? || e.InvalidRefs? || e.UnconfirmedRefs?
    ensures code == 400 <==> e.InvalidSteps? || e.ChangeNoteRequired? || e.InvalidTaskRefs?
  {
    match e
    case Forbidden(_) => 403
    case NotFound => 404
    case NotDraft(_) => 409
    case NotSubmitted(_) => 409
    case Immutable => 409
    case InvalidRefs => 409
    case UnconfirmedRefs => 409
    case InvalidSteps(_) => 400
    case ChangeNoteRequired => 400
    case InvalidTaskRefs(_) => 400
    case DuplicateKey => 500
  }

  /** The `detail` text the handler sends with the error. */
  function Detail(e: Error): string
  {
    match e
    case Forbidden(action) => "Forbidden: requires permission " + action
    case NotFound => "Not Found"
    case NotDraft(kind) => "Only draft " + Entity(kind) + "s can be submitted"
    case NotSubmitted(kind) => "Only submitted " + Entity(kind) + "s can be confirmed"
    case Immutable => "Confirmed records are immutable. Create a new version."
    case InvalidRefs => "Workflow contains invalid Task references (missing or deprecated task versions)"
    case UnconfirmedRefs => "Workflow may reference confirmed Task versions only. Confirm referenced Tasks, then try again."
    case InvalidSteps(st) => StepErrorDetail(st)
    case ChangeNoteRequired => "change_note is required when creating a new version"
    case InvalidTaskRefs(MissingAt(ln)) => "Invalid task reference '" + ln + "'. Use the format record_id@version, one per line."
    case InvalidTaskRefs(BadVersion(ln)) => "Invalid task version in '" + ln + "'. Use the format record_id@version."
    case InvalidTaskRefs(NoRefs) => "Workflow must include at least one confirmed Task reference"
    case DuplicateKey => "UNIQUE constraint failed"
  }
}
