/**
 * The role-based access matrix: four roles, and a permission check from a
 * role and an action string such as "task:confirm" to a yes/no answer.
 */
module Rbac {
  import opened Base
  import opened Text

  datatype Role = Viewer | Author | Reviewer | Admin

  /** The role a request runs under: the cookie's role when it names one, else the default, author. */
  function RoleOf(cookie: Option<string>): (r: Role)
    ensures cookie == Some("viewer") ==> r == Viewer
    ensures cookie == Some("reviewer") ==> r == Reviewer
    ensures cookie == Some("admin") ==> r == Admin
    ensures !(cookie in {Some("viewer"), Some("reviewer"), Some("admin")}) ==> r == Author
  {
    match cookie
    case Some(name) =>
      if name == "viewer" then Viewer
      else if name == "reviewer" then Reviewer
      else if name == "admin" then Admin
      else Author
    case None => Author
  }

  /** The acting user: the cookie's user name stripped, falling back to "anon" when that is empty. */
  function UserOf(cookie: Option<string>): (u: string)
    ensures u != []
    ensures cookie.Some? && !IsBlank(cookie.value) ==> u == Strip(cookie.value)
  {
    var raw := if cookie.Some? && cookie.value != [] then cookie.value else "anon";
    var stripped := Strip(raw);
    if stripped == [] then "anon" else stripped
  }

  /** Actions reserved to authors: creating, revising and submitting records, and importing PDFs. */
  predicate AuthorAction(action: string)
  {
    EndsWith(action, ":submit") || EndsWith(action, ":create") || EndsWith(action, ":revise")
    || action == "import:pdf"
  }

  /** `can(role, action)` */
  predicate Can(role: Role, action: string)
    ensures role == Admin ==> Can(role, action)
    ensures role == Viewer ==> !Can(role, action)
    ensures role == Reviewer ==> (Can(role, action) <==> EndsWith(action, ":confirm"))
  {
    if role == Admin then true
    else if EndsWith(action, ":confirm") then role == Reviewer
    else if EndsWith(action, ":submit") then role == Author
    else if EndsWith(action, ":create") || EndsWith(action, ":revise") then role == Author
    else if action == "import:pdf" then role == Author
    else false
  }

  /** A confirm action is never an author action: the two suffix families end in different letters. */
  lemma ConfirmIsNotAuthorAction(action: string)
    requires EndsWith(action, ":confirm")
    ensures !AuthorAction(action)
  {
    assert action[|action| - 1] == ":confirm"[7] == 'm';
  }

  /** Admin is allowed everything. */
  lemma AdminAllowedEverything(action: string)
    ensures Can(Admin, action)
  {
  }

  /** Viewer is denied everything. */
  lemma ViewerDeniedEverything(action: string)
    ensures !Can(Viewer, action)
  {
  }

  /** A `*:confirm` action is allowed exactly to reviewers (and admins). */
  lemma ConfirmOnlyReviewer(role: Role, action: string)
    requires EndsWith(action, ":confirm")
    ensures Can(role, action) <==> role == Reviewer || role == Admin
  {
  }

  /** `*:submit`, `*:create`, `*:revise` and `import:pdf` are allowed exactly to authors (and admins). */
  lemma AuthorActionsOnlyAuthor(role: Role, action: string)
    requires AuthorAction(action)
    ensures Can(role, action) <==> role == Author || role == Admin
  {
    if EndsWith(action, ":confirm") {
      ConfirmIsNotAuthorAction(action);
    }
  }

  /** Every other action is denied to everyone but admins. */
  lemma OtherActionsOnlyAdmin(role: Role, action: string)
    requires !EndsWith(action, ":confirm") && !AuthorAction(action)
    ensures Can(role, action) <==> role == Admin
  {
  }

  /** A reviewer may confirm but never submit, create or revise; an author the reverse. */
  lemma SeparationOfDuties(action: string)
    ensures Can(Reviewer, action) ==> EndsWith(action, ":confirm")
    ensures Can(Author, action) ==> AuthorAction(action) && !EndsWith(action, ":confirm")
  {
    if EndsWith(action, ":confirm") {
      ConfirmIsNotAuthorAction(action);
    }
  }
}
