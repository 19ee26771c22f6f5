/** The admin audit log: one entry per admin action, whose `actionType` the
    schema restricts to a fixed set of names.
 */
module AuditLog {

  import opened Wrappers
  import opened Entities

  /** The action names the audit-log schema accepts. */
  const Actions: set<string> :=
    {"VERIFY_DOCTOR", "REJECT_DOCTOR", "SUSPEND_DOCTOR", "UNSUSPEND_DOCTOR", "EDIT_DOCTOR", "SOFT_DELETE_DOCTOR"}

  /** The action set with the report-update action the report handler writes. */
  const ActionsWithReports: set<string> := Actions + {"UPDATE_REPORT"}

  /** One audit entry. */
  datatype Entry = Entry(adminId: Id, actionType: string, targetType: string, targetId: Id, note: string)

  /** `new AdminAuditLog({...})` with the schema's defaults: the target type
      is `DOCTOR` and the note is empty unless given. */
  function NewEntry(adminId: Id, actionType: string, targetType: Option<string>, targetId: Id, note: Option<string>): (e: Entry)
    ensures e.adminId == adminId && e.actionType == actionType && e.targetId == targetId
    ensures targetType.None? ==> e.targetType == "DOCTOR"
    ensures targetType.Some? ==> e.targetType == targetType.value
    ensures note.None? ==> e.note == ""
    ensures note.Some? ==> e.note == note.value
  {
    Entry(adminId, actionType, targetType.GetOr("DOCTOR"), targetId, note.GetOr(""))
  }

  /** `AdminAuditLog.create(e)` against the action set `allowed`: the entry
      is stored when its action is allowed, and a validation error (a
      server error) is raised otherwise. */
  function Create(e: Entry, allowed: set<string>): (r: Result<Entry>)
    ensures r.Ok? <==> e.actionType in allowed
    ensures r.Ok? ==> r.value == e
    ensures r.Err? ==> r.code == InternalError
  {
    if e.actionType in allowed then Ok(e) else Err(InternalError)
  }

  /** The action the report handler logs is not in the schema's set, so
      writing it always fails; with the extended set it succeeds. */
  lemma UpdateReportNotAllowed(e: Entry)
    requires e.actionType == "UPDATE_REPORT"
    ensures Create(e, Actions).Err?
    ensures Create(e, ActionsWithReports).Ok?
  {
    assert "UPDATE_REPORT" !in Actions;
  }
}
