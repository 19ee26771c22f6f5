/** The zod request schemas, as predicates over a request body. The
    `validate` middleware answers 400 when its schema rejects the body and
    otherwise hands the ORIGINAL body on: the parsed (stripped) copy is
    discarded, so keys a non-strict schema ignores still reach the handler.
 */
module Validation {

  import opened Wrappers
  import opened Js

  /** `.strict()`: the body has no key outside `keys`. */
  predicate OnlyKeys(body: Body, keys: set<string>) {
    forall k :: k in body ==> k in keys
  }

  /** `z.string().min(1)`. */
  predicate NonEmptyString(v: JsValue) {
    v.Str? && |v.s| >= 1
  }

  /** `z.string().max(n)`. */
  predicate StringAtMost(v: JsValue, n: nat) {
    v.Str? && |v.s| <= n
  }

  /** `z.string().optional()`: missing, or a string. */
  predicate OptionalString(v: JsValue) {
    v.Undefined? || v.Str?
  }

  /** `z.enum(values)`. */
  predicate OneOf(v: JsValue, values: set<string>) {
    v.Str? && v.s in values
  }

  /** `validate(schema)`: 400 when the schema rejects the body. */
  function Validate(accepted: bool): (r: Result<()>)
    ensures r.Ok? <==> accepted
    ensures r.Err? ==> r.code == BadRequest
  {
    if accepted then Ok(()) else Err(BadRequest)
  }

  // ---------------------------------------------------------------------------
  // Admin schemas

  const AdminProfileKeys: set<string> := {"name", "phone", "email", "role"}
  const RoleNames: set<string> := {"PATIENT", "DOCTOR", "ADMIN"}

  /** `updateAdminProfileSchema` (strict). `isEmail` stands for zod's e-mail
      check. */
  predicate AdminProfileOk(body: Body, isEmail: string -> bool) {
    && OnlyKeys(body, AdminProfileKeys)
    && (Get(body, "name").Undefined? || NonEmptyString(Get(body, "name")))
    && (Get(body, "phone").Undefined? || Get(body, "phone").Null? || Get(body, "phone").Str?)
    && (Get(body, "email").Undefined? || (Get(body, "email").Str? && isEmail(Get(body, "email").s)))
    && (Get(body, "role").Undefined? || OneOf(Get(body, "role"), RoleNames))
  }

  const PasswordKeys: set<string> := {"currentPassword", "newPassword"}

  /** `changePasswordSchema` (strict): two non-empty strings. */
  predicate ChangePasswordOk(body: Body) {
    && OnlyKeys(body, PasswordKeys)
    && NonEmptyString(Get(body, "currentPassword"))
    && NonEmptyString(Get(body, "newPassword"))
  }

  const SuspendKeys: set<string> := {"reason", "note"}

  /** `suspendDoctorSchema` (strict): a non-empty reason and an optional note. */
  predicate SuspendOk(body: Body) {
    && OnlyKeys(body, SuspendKeys)
    && NonEmptyString(Get(body, "reason"))
    && OptionalString(Get(body, "note"))
  }

  /** `unsuspendDoctorSchema` (strict): an optional note and nothing else. */
  predicate UnsuspendOk(body: Body) {
    OnlyKeys(body, {"note"}) && OptionalString(Get(body, "note"))
  }

  /** `editDoctorProfileSchema` (not strict: other keys pass unchecked). */
  predicate EditDoctorProfileOk(body: Body) {
    && OptionalString(Get(body, "specialization"))
    && (Get(body, "experienceYears").Undefined? || (Get(body, "experienceYears").Num? && Get(body, "experienceYears").n >= 0.0))
    && (Get(body, "fee").Undefined? || (Get(body, "fee").Num? && Get(body, "fee").n >= 0.0))
    && (Get(body, "bio").Undefined? || StringAtMost(Get(body, "bio"), 1000))
    && OptionalString(Get(body, "licenseNo"))
  }

  // ---------------------------------------------------------------------------
  // Review and report schemas

  /** `createReviewSchema` (not strict): an appointment id, a rating in
      [1, 5] (not necessarily whole) and an optional comment of at most 500
      characters. */
  predicate CreateReviewOk(body: Body) {
    && NonEmptyString(Get(body, "appointmentId"))
    && Get(body, "rating").Num? && 1.0 <= Get(body, "rating").n <= 5.0
    && (Get(body, "comment").Undefined? || StringAtMost(Get(body, "comment"), 500))
  }

  const ReportReasons: set<string> := {"PROFESSIONALISM", "COMMUNICATION", "APPOINTMENT_ISSUES", "OTHER"}
  const ReportStatuses: set<string> := {"OPEN", "UNDER_REVIEW", "ACTIONED", "DISMISSED"}

  /** `createReportSchema`. */
  predicate CreateReportOk(body: Body) {
    && NonEmptyString(Get(body, "doctorId"))
    && NonEmptyString(Get(body, "appointmentId"))
    && OneOf(Get(body, "reason"), ReportReasons)
    && NonEmptyString(Get(body, "description")) && StringAtMost(Get(body, "description"), 1000)
  }

  /** `updateReportSchema`; no route applies it. */
  predicate UpdateReportOk(body: Body) {
    && (Get(body, "status").Undefined? || OneOf(Get(body, "status"), ReportStatuses))
    && (Get(body, "internalNote").Undefined? || StringAtMost(Get(body, "internalNote"), 1000))
  }

  /** The schemas pin their fields' types: a body the admin-profile schema
      accepts carries no alias key, one the password schema accepts carries
      neither `oldPassword` nor `password`, and one the suspend schema
      accepts always has a string reason. */
  lemma StrictSchemasRejectAliases(body: Body, isEmail: string -> bool)
    ensures AdminProfileOk(body, isEmail) ==> "fullName" !in body && "phoneNumber" !in body
    ensures ChangePasswordOk(body) ==> "oldPassword" !in body && "password" !in body
    ensures SuspendOk(body) ==> "reason" in body && body["reason"].Str?
  {
    if AdminProfileOk(body, isEmail) {
      assert "fullName" !in AdminProfileKeys && "phoneNumber" !in AdminProfileKeys;
    }
    if ChangePasswordOk(body) {
      assert "oldPassword" !in PasswordKeys && "password" !in PasswordKeys;
    }
  }

  /** The edit schema is not strict: user fields such as `name` and `email`
      pass it whatever their values. */
  lemma EditSchemaIgnoresUserFields(body: Body, name: JsValue, email: JsValue)
    requires EditDoctorProfileOk(body)
    ensures EditDoctorProfileOk(body["name" := name]["email" := email])
  {
    var b := body["name" := name]["email" := email];
    assert forall k :: k != "name" && k != "email" ==> Get(b, k) == Get(body, k);
  }
}
