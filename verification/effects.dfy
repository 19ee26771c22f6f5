/** What an account-management handler leaves behind: the directory after
    its writes, the notifications it asked for, the audit entries it wrote,
    and the reply. A handler may have written to the directory before it
    answers with an error, so the directory and the reply are separate.
 */
module Effects {

  import opened Wrappers
  import opened Profiles
  import NotificationModel
  import AuditLog

  datatype Outcome<+T> = Outcome(
    dir: Directory,
    notices: seq<NotificationModel.Draft>,
    logs: seq<AuditLog.Entry>,
    reply: Result<T>)

  /** An error reply that changed nothing. */
  function Refuse<T>(dir: Directory, code: Code): Outcome<T> {
    Outcome(dir, [], [], Err(code))
  }

  /** The outcome left nothing behind. */
  predicate Unchanged<T>(o: Outcome<T>, dir: Directory) {
    o.dir == dir && o.notices == [] && o.logs == []
  }
}
