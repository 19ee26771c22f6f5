/** The records every server module shares: roles, the authenticated caller,
    users and appointments. Identifiers are abstract numbers; the platform's
    Mongo ObjectIds are compared only for equality.
 */
module Entities {

  import opened Wrappers

  /** A document identifier (a Mongo ObjectId). */
  type Id = nat

  /** The role stored on a user account. */
  datatype Role = Patient | Doctor | Admin {

    /** The role's name as stored and sent over the wire. */
    function Name(): string {
      match this
      case Patient => "PATIENT"
      case Doctor => "DOCTOR"
      case Admin => "ADMIN"
    }
  }

  /** The role named by `s`, when `s` is one of `PATIENT`, `DOCTOR`, `ADMIN`. */
  function ParseRole(s: string): (r: Option<Role>)
    ensures r.Some? ==> r.value.Name() == s
    ensures forall role: Role :: role.Name() == s ==> r == Some(role)
  {
    if s == "PATIENT" then Some(Patient)
    else if s == "DOCTOR" then Some(Doctor)
    else if s == "ADMIN" then Some(Admin)
    else None
  }

  /** The authenticated user a request runs for (`req.user`). */
  datatype Caller = Caller(id: Id, role: Role)

  /** The part of a user account the core reads and writes. `suspendedAt`
      and `deletedAt` hold a time in milliseconds when set. */
  datatype User = User(
    name: string,
    email: string,
    role: Role,
    isActive: bool,
    suspendedAt: Option<int>,
    deletedAt: Option<int>)

  /** An appointment as the review, report and health-record handlers see it.
      Its status is the stored string (`COMPLETED`, `CONFIRMED`, ...); the
      appointment lifecycle itself is not part of this model. */
  datatype Appointment = Appointment(patientId: Id, doctorId: Id, status: string)
}
