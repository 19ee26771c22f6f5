# A verified model of the consultation platform's rule systems

The platform is a doctor-consultation web application. It has an Express/Mongoose server and a React client. Patients book doctors, leave reviews, file reports and keep health records. Doctors write prescriptions and go through admin verification. Admins verify, suspend and edit doctor accounts. Everyone receives notifications.

This project models, in Dafny, the rule systems inside that application. Each is written as pure functions over immutable records. Every handler takes the store it reads (a directory of users and profiles, sequences of reviews, reports, notifications and health records) and returns the new store or an HTTP error status.

The areas modelled:

- **Doctor verification and suspension.** `DoctorController`, `AdminDoctors`, `DoctorRestrictions` and `Profiles` model the profile save, the public list and lookup, the pending list, the verification decision, the re-verification request, suspension, unsuspension and the suspension gate middleware. `Lifecycle` proves how these handlers fit together.
- **Reviews, reports and the rating aggregate.** `Reviews`, `Reports`, `Pagination` and `AuditLog` model the ordered precondition chains, one review per appointment, the average kept on the profile, partial report updates, paged listings and the audit action enum.
- **Notifications.** On the server, `NotificationsController`, `NotificationModel` and `Notify` model the addressing rule shared by listing, mark-one and mark-all, the defaults of `createNotification`, and the event-to-recipient table. On the client, `NotificationContext`, `NotificationPanel`, `NotificationBell` and `AutoNotifications` model:
  - the local list and its refetch guards;
  - the time-ago buckets, icons and navigation guard;
  - the badge and the open throttle;
  - the notifications the browser generates itself.
- **Health records.** `HealthRecords` models creation defaults, the read, write and delete rules, the partial update, and a doctor's access through an appointment.
- **Input handling.** `Validation` models the zod schemas behind the `validate` middleware. `AdminProfile` models the admin's profile and password handlers. `DoctorNames` and `ClientDoctorUtils` model the two copies of `cleanDoctorName`.
- **Client pages.** `ClientLists` models the pending-prescription and pending-review lists and the star row. `CreatePrescription` models the medicine form. `ManageDoctors` models the admin's doctor list: badges, filters, pager and the suspend and unsuspend requests.

Shared modules:

- `Wrappers`: `Option`, `Result` and the status codes.
- `Js`: JSON values, truthiness, `||`, and reading a missing key.
- `Text`: an ASCII `trim`, `toUpperCase` and `\s`.
- `Seqs`: filter, count, limit, and a newest-first sort proved sorted and a permutation.
- `Entities`, `Effects`: the records and handler outcomes the server modules share.

Inputs the code cannot compute are passed in as parameters:

- the current time;
- new record ids;
- `Date` parsing and number-to-text formatting;
- regular-expression tests on user-supplied patterns;
- the answers to `prompt` and `confirm`;
- whether a database write succeeds.

## Model

| member | source | states |
|---|---|---|
| DoctorNames.MatchLength | server/src/utils/doctorUtils.js:10 | the pattern `^dr\.?\s*` matches (at least two characters) exactly when the name starts with `dr` in any letter case, and never more than the name |
| DoctorNames.Clean | server/src/utils/doctorUtils.js:6-11 | a missing or empty name gives `""`; the result never has outer whitespace; a name without the prefix is only trimmed; otherwise what follows `dr` and its optional dot, trimmed |
| DoctorNames.Format | server/src/utils/doctorUtils.js:18-23 | a missing or empty name gives `Doctor`; any other name gets the `Dr. ` prefix |
| DoctorNames.CleanDrDot | server/src/utils/doctorUtils.js:10 | `Dr. ` in front of a trimmed name is exactly what cleaning strips |
| DoctorNames.CleanOfFormat | server/src/utils/doctorUtils.js:18-23 | cleaning a formatted name gives back the cleaned name (clean is a left inverse of format) |
| DoctorNames.FormatIdempotent | server/src/utils/doctorUtils.js:18-23 | formatting a formatted name changes nothing: the prefix is never doubled |
| DoctorNames.CleanRemovesOnePrefix | server/src/utils/doctorUtils.js:10 | only one prefix goes: `Dr. Dr. X` cleans to `Dr. X` |
| DoctorNames.CleanDrake | server/src/utils/doctorUtils.js:10 | no separator is needed after `dr`, so `Drake` cleans to `ake` |
| DoctorNames.CleanLeadingSpaceKeepsPrefix | server/src/utils/doctorUtils.js:10 | the pattern is anchored, so a leading space keeps the prefix: `" " + c` cleans to `c` |
| ClientDoctorUtils.CleanDoctorName | client/src/utils/doctorUtils.js:6-11 | a missing or empty name gives `""`, and the result never has outer whitespace |
| ClientDoctorUtils.SameAsServer | client/src/utils/doctorUtils.js:6-11 | the browser copy returns exactly what the server copy returns, for every input |
| AuditLog.NewEntry | server/src/models/AdminAuditLog.js:15-26 | the target type defaults to `DOCTOR` and the note to `""`; admin, action and target are kept |
| AuditLog.Create | server/src/models/AdminAuditLog.js:10-14 | an entry is stored exactly when its action is in the schema's enum; otherwise a server error |
| AuditLog.UpdateReportNotAllowed | server/src/models/AdminAuditLog.js:12 | an `UPDATE_REPORT` entry always fails validation, and is stored once the enum carries the report action |
| Profiles.ParseStatus | server/src/models/DoctorProfile.js:40-44 | a string parses exactly when it names one of the four statuses, and to that status |
| Profiles.NewProfile | server/src/models/DoctorProfile.js:11-62 | a new profile is `PENDING` with trimmed specialization and licence number, empty rejection reason, no rating, zero reviews and no re-verification request |
| Profiles.Save | server/src/models/DoctorProfile.js:3-66 | a save succeeds, returning the profile unchanged, exactly when it passes the schema's validators (required fields, non-negative numbers, bio of at most 1000 characters, rating in [0, 5]); otherwise a server error |
| NotificationModel.Create | server/src/utils/notify.js:13-37 | a notification is created exactly when the save succeeds with a non-empty title and message (otherwise `null`, never an exception); recipient defaults to none, role to `ALL`, metadata to `{}` and supplied metadata is stored as given; it starts unread with no read time |
| Notify.AppointmentDrafts | server/src/utils/notify.js:42-91 | `BOOKED` tells the doctor, `CONFIRMED` the patient, `CANCELLED` the patient then the doctor, any other event nobody; each carries the appointment id |
| Notify.AppointmentDraftsReachParties | server/src/utils/notify.js:42-91 | every appointment notification is addressed to a party of the appointment under that party's role, and no event notifies the same role twice |
| Notify.PaymentDrafts | server/src/utils/notify.js:96-130 | nothing when the appointment is not found; `SUCCESS` and `REFUNDED` tell the patient only; other events nobody |
| Notify.PrescriptionDraft | server/src/utils/notify.js:135-146 | one notification, addressed to the prescription's patient |
| Notify.PaymentDraftsReachPatient | server/src/utils/notify.js:96-130 | each payment notification is stored when its save succeeds, carries the payment and appointment ids, and is seen by the appointment's patient and no other user |
| Notify.PrescriptionDraftReachesPatient | server/src/utils/notify.js:135-146 | the prescription notification is stored when its save succeeds, carries the prescription, appointment and doctor ids, and is seen by the prescription's patient and no other user |
| Notify.RejectionMessage | server/src/utils/notify.js:172 | the reason is appended after `: ` exactly when one is given |
| Notify.VerificationDrafts | server/src/utils/notify.js:151-177 | `VERIFIED` and `REJECTED` each give exactly one draft to the profile's owner under role `DOCTOR`, of type `VERIFICATION`, with its own title and message and the profile id as metadata; other events give nobody a draft |
| Notify.RejectionMessageMentionsReason | server/src/utils/notify.js:172 | the message is longer than the bare rejection text exactly when a reason was given |
| NotificationsController.QueryAgreesWithCheck | server/src/modules/notifications/notifications.controller.js:10-22 | the listing query and the check `markAsRead` runs (lines 58-61) accept exactly the same notifications for every caller |
| NotificationsController.PersonalIsPrivate | server/src/modules/notifications/notifications.controller.js:58-61 | a notification addressed to one user may be marked by that user and by nobody else |
| NotificationsController.List | server/src/modules/notifications/notifications.controller.js:4-38 | the caller's notifications only, newest first, `min(30, visible)` of them, no notification more often than it is stored, and every visible one left out is no newer than every one shown |
| NotificationsController.CreatedVisibleIff | server/src/modules/notifications/notifications.controller.js:9-21 | a stored notification is in a user's listing query exactly when its draft was addressed to them |
| NotificationsController.ListShowsNewest | server/src/modules/notifications/notifications.controller.js:9-24 | a notification of the caller's newer than every other they can see is listed |
| NotificationsController.AppendedIsMarkable | server/src/modules/notifications/notifications.controller.js:41-85 | the caller may mark read a notification of theirs stored under a fresh id |
| NotificationsController.CreatedReachesAddressee | server/src/modules/notifications/notifications.controller.js:4-85 | a notification just created for a user is listed for them and may be marked read by them |
| NotificationsController.Find | server/src/modules/notifications/notifications.controller.js:48 | the position found holds that id; no position means no notification has it |
| NotificationsController.MarkAsRead | server/src/modules/notifications/notifications.controller.js:41-85 | a malformed id is 500, a missing notification 404, someone else's 403; otherwise only that notification changes, to read with the current time |
| NotificationsController.MarkAsReadAgain | server/src/modules/notifications/notifications.controller.js:70-73 | marking read again succeeds and only moves `readAt` to the later time |
| NotificationsController.BroadcastReadForAll | server/src/modules/notifications/notifications.controller.js:70-73 | read state is kept once per notification: a broadcast one marked by one user is read for every user it reaches |
| NotificationsController.MarkAllAsRead | server/src/modules/notifications/notifications.controller.js:88-124 | exactly the caller's unread notifications become read at the current time, all others are untouched, and the count is the number of those modified |
| NotificationsController.NothingUnreadAfterMarkAll | server/src/modules/notifications/notifications.controller.js:94-112 | afterwards the caller has nothing unread, so a second call modifies nothing |
| Pagination.ParamOr | server/src/modules/reviews/reviews.controller.js:82-83 | a missing, unparsable or zero parameter falls back to the default; any other value is kept; the result is never zero |
| Pagination.Window | server/src/modules/reviews/reviews.controller.js:84-90 | a negative skip is a store error; otherwise the slice of at most `limit` items from `skip` (zero limit: all the rest; negative limit: its absolute value), never holding an item more often than the list does |
| Pagination.Pages | server/src/modules/reviews/reviews.controller.js:102 | `ceil(total / limit)`: the pages cover the total and the last page is not empty |
| Pagination.PageWithinCount | server/src/modules/reviews/reviews.controller.js:82-102 | a page from 1 on is non-empty exactly when it is within the advertised page count |
| Pagination.ItemOnItsPage | server/src/modules/reviews/reviews.controller.js:84-102 | every item lies on exactly one page of the advertised range |
| Pagination.WindowOfSorted | server/src/modules/reviews/reviews.controller.js:86-90 | a page of a sorted list is sorted, holds only items of the list and no more than the limit |
| Pagination.WindowWithin | server/src/modules/reviews/reviews.controller.js:84-90 | a window of a list drawn from a store holds no item more often than the store |
| Pagination.WindowFacts | server/src/modules/reviews/reviews.controller.js:84-90 | a window of a sorted selection of a store is sorted, satisfies the selection, lies in the store, repeats nothing the store does not and respects a positive limit |
| Reviews.CreateReview | server/src/modules/reviews/reviews.controller.js:7-76 | the checks answer in order (not a patient 403, a malformed appointment id 500, no appointment 404, not theirs 403, not `COMPLETED` 400, already reviewed 400); on success exactly one review is appended, by the caller, for the appointment's doctor, with the comment or `""`; one review per appointment and the schema's bounds are preserved |
| Reviews.SchemaRequestSaves | server/src/modules/reviews/reviews.validation.js:3-7 | behind the review schema the only 500 is a patient's malformed appointment id (the schema checks presence, not form); a submission succeeds exactly when the caller is the patient of a known, completed, unreviewed appointment |
| Reviews.ExactlyOneAfterCreate | server/src/models/Review.js:9 | after a successful submission the appointment has exactly one review |
| Reviews.SumBounds | server/src/modules/reviews/reviews.controller.js:187 | the sum of `n` ratings each in [lo, hi] is in [n*lo, n*hi] |
| Reviews.MeanWithinRatings | server/src/modules/reviews/reviews.controller.js:187-188 | the mean of ratings in [1, 5] is in [1, 5] |
| Reviews.Round1 | server/src/modules/reviews/reviews.controller.js:194 | `parseFloat(x.toFixed(1))` is within 0.05 of `x` and keeps a value in [1, 5] in [1, 5] |
| Reviews.RatingsOf | server/src/modules/reviews/reviews.controller.js:176 | one rating per review of the doctor, each in [1, 5] when the stored reviews are valid |
| Reviews.Summarize | server/src/modules/reviews/reviews.controller.js:177-197 | no reviews unsets both fields; otherwise the count and a rounded mean within 0.05 of the true mean and within [1, 5] |
| Reviews.UpdateAverageRating | server/src/modules/reviews/reviews.controller.js:174-201 | only the doctor's profile changes, and only its rating fields; a failed write or a missing profile changes nothing |
| Reviews.SubmitReview | server/src/modules/reviews/reviews.controller.js:54-63 | the submission succeeds exactly when the review is created; afterwards the doctor's count equals their number of reviews and the average is in [1, 5] |
| Reviews.ReviewsOfDoctor | server/src/modules/reviews/reviews.controller.js:86-88 | exactly the doctor's reviews, newest first |
| Reviews.DoctorReviews | server/src/modules/reviews/reviews.controller.js:79-112 | a malformed doctor id or a negative skip is a 500; with a well-formed id the answer is that doctor's page |
| Reviews.ReviewPageOf | server/src/modules/reviews/reviews.controller.js:79-112 | a negative skip is a 500; otherwise exactly the window from `skip` of the doctor's reviews newest first, at most `limit` of them and none twice, with the total of the doctor's reviews, page, limit (default 10, never zero) and page count |
| Reviews.ReviewsOfDoctorWithin | server/src/modules/reviews/reviews.controller.js:86-88 | the doctor's reviews hold no review more often than the store does |
| Reports.DoctorName | server/src/modules/reports/reports.controller.js:59-62 | the doctor's account name, or `Doctor <id>` when there is no account |
| Reports.LicenseInfo | server/src/modules/reports/reports.controller.js:60-63 | ` (License: <no>)` exactly when the doctor has a profile with a non-empty licence number, otherwise `""` |
| Reports.NewReportDraft | server/src/modules/reports/reports.controller.js:66-72 | the notification goes to every admin (no recipient, role `ADMIN`), names the doctor and their licence, and carries the report id and doctor name |
| Reports.CreateReport | server/src/modules/reports/reports.controller.js:8-88 | the checks answer in order (a malformed appointment id 500, no appointment 404, not the caller's 403, another doctor 400, already reported 400, invalid reason or description 500); the doctor id is compared as text, so a malformed one is "another doctor"; it succeeds exactly when all pass, appending one `OPEN` report with an empty note and one admin notification; one report per appointment is preserved |
| Reports.SchemaRequestSaves | server/src/modules/reports/reports.validation.js:5-10 | behind the create schema the only 500 is a malformed appointment id; a submission succeeds exactly when the appointment is known, the caller's, for the named doctor and not yet reported |
| Reports.ReportNeedsNoCompletion | server/src/modules/reports/reports.controller.js:14-45 | a patient may report the doctor of a booked (not completed) appointment, while reviewing it is refused with a 400 |
| Reports.ExactlyOneAfterCreate | server/src/modules/reports/reports.controller.js:39-54 | after a successful submission the appointment has exactly one report |
| Reports.GetReports | server/src/modules/reports/reports.controller.js:91-138 | a negative skip is a 500; otherwise exactly the window from `skip` of the matching reports newest first, at most `limit` of them and none twice, the total of all matches and `ceil(total / limit)` pages (none for a zero limit) |
| Reports.NoFilterCountsAll | server/src/modules/reports/reports.controller.js:97-118 | with no filter every report is counted |
| Reports.Find | server/src/modules/reports/reports.controller.js:153 | the position found holds that id; no position means no report has it |
| Reports.FindUnique | server/src/modules/reports/reports.controller.js:153 | with distinct ids, the report found is the only one with that id |
| Reports.GetReportById | server/src/modules/reports/reports.controller.js:141-175 | a malformed id is 400; the report is returned exactly when one has that id, 404 otherwise |
| Reports.CastText | server/src/models/Report.js:34-37 | storing a value in a string field keeps strings, prints numbers and booleans, keeps `null`, and refuses objects |
| Reports.Edit | server/src/modules/reports/reports.controller.js:201-212 | only status and note change; a truthy status replaces the old one and must be in the enum (lines 29-33 of the model), a defined note replaces the note (`null` clears it); a schema-valid body always saves, and a saved report is valid |
| Reports.UpdateReportWith | server/src/modules/reports/reports.controller.js:178-245 | a malformed id 400 and a missing report 404 change nothing; otherwise only that report is replaced by its edit; it answers with the report exactly when the edit saves and the audit action is allowed, logging one `UPDATE_REPORT` entry that records a status change only when the status changed |
| Reports.UpdateReport | server/src/modules/reports/reports.controller.js:220-227 | as written, with the audit log's action enum: every call answers an error and logs nothing |
| Reports.UpdateReportCorrected | server/src/modules/reports/reports.controller.js:178-245 | with the report action allowed, an update answers with the report exactly when the id is valid, the report exists and its edit saves |
| Reports.UpdateAlwaysFailsAfterSaving | server/src/modules/reports/reports.controller.js:212-227 | every update that reaches the audit write answers 500 and logs nothing, yet the report is saved exactly as the corrected handler saves it |
| Reports.ClosingReportShowsError | server/src/modules/reports/reports.controller.js:204-227 | concretely: setting an `OPEN` report to `ACTIONED` changes it in the store while the admin gets an error |
| Reports.SchemaBodySaves | server/src/modules/reports/reports.validation.js:13-16 | behind the update schema, the edit of a valid report always saves |
| Reports.UpdateIsIdempotent | server/src/modules/reports/reports.controller.js:204-218 | repeating an update saves the same reports, gives the same answer and records no status change |
| Reports.UpdateTouchesOneReport | server/src/modules/reports/reports.controller.js:192-212 | every other report is left as it was |
| Entities.ParseRole | server/src/modules/admin/admin.controller.js:106-107 | a string parses exactly when it names one of `PATIENT`, `DOCTOR`, `ADMIN`, and to that role |
| Validation.Validate | server/src/middlewares/validate.js:4-22 | a body the schema refuses is answered 400 before the handler runs; an accepted one passes through |
| Validation.StrictSchemasRejectAliases | server/src/modules/admin/admin.validation.js:4-21 | the strict schemas refuse the alias keys the handlers read (`fullName`, `phoneNumber`, `oldPassword`, `password`), and the suspend schema always yields a string reason |
| Validation.EditSchemaIgnoresUserFields | server/src/modules/admin/admin.validation.js:29-35 | the edit schema is not strict, so `name` and `email` pass it whatever their values |
| AdminProfile.IsEmailShaped | server/src/modules/admin/admin.controller.js:95-96 | the one-pass test accepts exactly the strings `^\S+@\S+\.\S+$` matches |
| AdminProfile.UpdateAdminProfile | server/src/modules/admin/admin.controller.js:37-149 | the checks answer in order: no field 400; an empty or `null` name 400 and a non-string name 500, otherwise trimmed; an empty, `null` or malformed e-mail 400; an unknown role 400; then the store's validators 400 and a missing admin 404; it succeeds exactly when all pass; an empty or `null` phone is stored as `null`; each field is written exactly when it was sent |
| AdminProfile.SchemaBodyNeedsNoAliases | server/src/modules/admin/admin.controller.js:40-48 | behind the strict schema the normalised fields are exactly the keys sent: the aliases are never read |
| AdminProfile.BlankNameIsStoredEmpty | server/src/modules/admin/admin.controller.js:68-76 | a name of spaces only passes the schema and the emptiness check (which runs before the trim), so `""` is stored |
| AdminProfile.EmptyPhoneClears | server/src/modules/admin/admin.controller.js:80-84 | a phone of `""` clears the phone rather than being refused |
| AdminProfile.ChangePassword | server/src/modules/admin/admin.controller.js:152-211 | a missing current or new password (under either name) is 400, a missing admin 404, a wrong current password 400; otherwise the new password is stored |
| AdminProfile.SchemaPasswordsNeedNoAliases | server/src/modules/admin/admin.controller.js:155-160 | behind the strict schema the change succeeds exactly when the admin exists and the current password matches, and stores `newPassword` |
| AdminDoctors.SuspendNote | server/src/modules/admin/admin.controller.js:333 | the audit note is the reason, followed by ` - note` exactly when a non-empty note is given |
| AdminDoctors.Suspend | server/src/modules/admin/admin.controller.js:252-347 | a malformed id or blank reason is 400 and a missing or non-doctor user 404, changing nothing; on success only that user changes (inactive, stamped suspended at `now`) and their profile, if any, becomes `SUSPENDED` with every other field kept |
| AdminDoctors.SuspendRoute | server/src/modules/admin/admin.routes.js:42 | a body the suspend schema refuses is 400 with nothing changed; a success implies the schema accepted a reason that is not blank |
| AdminDoctors.BlankReasonPassesSchemaOnly | server/src/modules/admin/admin.validation.js:18-21 | a reason of spaces only passes the schema (length at least 1) and is then refused 400 by the handler's trim check (line 266 of the controller) |
| AdminDoctors.Unsuspend | server/src/modules/admin/admin.controller.js:350-428 | a malformed id 400, a missing doctor or profile 404, a `SUSPENDED` profile with no re-verification request 403 (and only then); it succeeds exactly when none of these holds and the cleared profile passes the schema; a failing profile save is 500 with the reactivated user already written; on success the user is active with no suspension stamp, the request is cleared, the status is kept, the doctor gets the `Account Unsuspended` notice, and the note or `Doctor unsuspended by admin` is logged |
| AdminDoctors.NormaliseEdit | server/src/modules/admin/admin.controller.js:657-673 | the normalised body has exactly the nine user and profile fields |
| AdminDoctors.PlanEdit | server/src/modules/admin/admin.controller.js:675-708 | each defined field lands, with its value, in exactly one of the user and profile documents; nothing to update is 400, and so, after that, is a malformed id |
| AdminDoctors.Partition | server/src/modules/admin/admin.controller.js:680-708 | for any normalised body, the user document takes exactly its defined user fields and the profile document exactly its defined profile fields, disjointly; nothing defined is a 400 |
| AdminDoctors.EditNameOnlyReachesUser | server/src/modules/admin/admin.validation.js:29-35 | a body with only `name` passes the non-strict edit schema and updates the user document alone |
| DoctorRestrictions.Check | server/src/middlewares/doctorRestrictions.js:4-35 | non-doctors pass; a doctor with no stored account is 404; a doctor is refused 403 exactly when their account carries a suspension stamp, and passes exactly when it does not |
| DoctorRestrictions.SaveProfileRoute | server/src/modules/doctor/doctor.routes.js:26 | a suspended doctor cannot save a profile; a successful save implies an unstamped account and leaves the caller's profile `PENDING` |
| DoctorRestrictions.OnlyTheStampCounts | server/src/middlewares/doctorRestrictions.js:21-26 | an inactive, rejected doctor without a suspension stamp still passes the gate |
| DoctorController.Resubmit | server/src/modules/doctor/doctor.controller.js:25-35 | every submitted field replaces the stored one (specialization and licence trimmed as the model trims them), the document URL only when a non-empty one is sent, the status returns to `PENDING`, and the rejection reason, rating aggregate and request stamp are kept |
| DoctorController.SaveProfile | server/src/modules/doctor/doctor.controller.js:9-60 | a non-doctor is 403; the save succeeds exactly when the caller is a doctor and the schema accepts the resubmitted or new profile, and is 500 otherwise; on success that profile is stored, valid and `PENDING`, and no user and no other profile changes |
| DoctorController.SaveIffFormValid | server/src/modules/doctor/doctor.controller.js:23-45 | a doctor's save succeeds exactly when the submitted fields pass the schema after its trims and, for an existing profile, the stored rating is within [0, 5] |
| DoctorController.PublicBase | server/src/modules/doctor/doctor.controller.js:94-106 | exactly the `VERIFIED` profiles whose user exists, is active and is a `DOCTOR` |
| DoctorController.BySpecialization | server/src/modules/doctor/doctor.controller.js:109-112 | a filled pattern that does not compile is a 500; otherwise keeps exactly the doctors whose specialization the pattern matches, all of them when no pattern is sent |
| DoctorController.ByFee | server/src/modules/doctor/doctor.controller.js:114-120 | keeps exactly the doctors whose fee lies within the given bounds, both inclusive |
| DoctorController.ByText | server/src/modules/doctor/doctor.controller.js:122-127 | a filled pattern that does not compile is a 500; otherwise keeps exactly the doctors whose specialization or bio the pattern matches |
| DoctorController.ByAvailability | server/src/modules/doctor/doctor.controller.js:130-139 | keeps exactly the doctors with a free slot on the requested date, all of them when no date is sent |
| DoctorController.PublicDoctors | server/src/modules/doctor/doctor.controller.js:89-152 | a 500 exactly when a sent pattern does not compile; otherwise a doctor is listed exactly when public and accepted by every requested filter |
| DoctorController.PublicDoctor | server/src/modules/doctor/doctor.controller.js:155-193 | a malformed id is 500; otherwise found exactly when the profile is `VERIFIED` and its user exists and is active (the role is not consulted), 404 otherwise |
| DoctorController.ListedIffFound | server/src/modules/doctor/doctor.controller.js:94-193 | a doctor on the public list is found by id with that profile, and one found by id is on the list exactly when the account's role is `DOCTOR` |
| DoctorController.PendingDoctors | server/src/modules/doctor/doctor.controller.js:196-225 | exactly the `PENDING` profiles whose user is an active `DOCTOR` |
| DoctorController.PendingDoctorsWithRequests | server/src/modules/doctor/doctor.controller.js:199 | every `PENDING` profile of a `DOCTOR`, active or not; it contains the list as written |
| DoctorController.VerifyDoctor | server/src/modules/doctor/doctor.controller.js:228-296 | a malformed id is 500 and changes nothing; a well-formed one is handled as `VerifyDoctorId` |
| DoctorController.VerifyDoctorId | server/src/modules/doctor/doctor.controller.js:228-296 | a missing profile 404, and a status outside the enum or a decided profile the schema refuses 500, change nothing; otherwise the status is set whatever it was, a reason is stored only for `REJECTED` with a non-empty reason, the verification drafts are sent and one entry is logged (`VERIFY_DOCTOR` iff `VERIFIED`); `VERIFIED` reactivates the user and clears the stamp; the reply is Ok exactly when the decision saves and the user exists, and a missing user gives 500 after the writes, because the e-mail has no address |
| DoctorController.VerifyingValidProfileSaves | server/src/modules/doctor/doctor.controller.js:240-256 | a stored doctor whose profile passes the schema can always be verified, whatever its status |
| DoctorController.RequestReverification | server/src/modules/doctor/doctor.controller.js:299-351 | a missing doctor or profile is 404, a status other than `SUSPENDED` or `REJECTED` 400, and a `PENDING` profile the schema refuses 500; it succeeds exactly when none of these holds; on success the profile becomes `PENDING` and the account inactive, and nothing else changes |
| Lifecycle.ReverificationOpensUnsuspendGate | server/src/modules/admin/admin.controller.js:350-428 | after a successful re-verification request the admin's unsuspension succeeds |
| Lifecycle.SuspendedOrRejectedCanAsk | server/src/modules/doctor/doctor.controller.js:299-335 | a stored doctor with a `SUSPENDED` or `REJECTED` profile that passes the schema can request re-verification |
| Lifecycle.SuspendAskUnsuspend | server/src/modules/admin/admin.controller.js:381-396 | after a suspension of a doctor with a valid profile, the doctor's request and then the admin's unsuspension both succeed, leaving the account active and unstamped |
| Lifecycle.ReverificationHidesFromPendingList | server/src/modules/doctor/doctor.controller.js:196-212 | after a re-verification request the doctor is off the pending list as written but on the one the comment describes |
| Lifecycle.ReverificationKeepsRestriction | server/src/modules/doctor/doctor.controller.js:329-335 | the request keeps the suspension stamp, so a suspended doctor is still refused by the restriction gate |
| Lifecycle.SaveRecordsNoRequest | server/src/modules/doctor/doctor.controller.js:9-60 | saving a profile records no re-verification request |
| Lifecycle.VerifyRecordsNoRequest | server/src/modules/doctor/doctor.controller.js:228-296 | a verification decision records no re-verification request |
| Lifecycle.RequestRecordsNoRequest | server/src/modules/doctor/doctor.controller.js:329-335 | asking for re-verification does not record the request stamp either |
| Lifecycle.SuspendRecordsNoRequest | server/src/modules/admin/admin.controller.js:252-347 | suspending records no re-verification request |
| Lifecycle.UnsuspendRecordsNoRequest | server/src/modules/admin/admin.controller.js:350-428 | unsuspending records no re-verification request |
| Lifecycle.SuspensionIsSticky | server/src/modules/admin/admin.controller.js:252-428 | with no request on record, a profile just suspended cannot be unsuspended (403) |
| Lifecycle.SuspensionAndResubmissionHide | server/src/modules/doctor/doctor.controller.js:9-106 | a suspended doctor and one who has just saved a profile are both off the public list |
| Lifecycle.VerificationUndoesSuspension | server/src/modules/doctor/doctor.controller.js:248-256 | a `VERIFIED` decision after a suspension leaves the account active and passing the restriction gate |
| Lifecycle.VerificationAfterSuspensionSaves | server/src/modules/doctor/doctor.controller.js:240-256 | the `VERIFIED` decision after a suspension succeeds when the stored profile passes the schema |
| HealthRecords.CreateRecord | server/src/modules/healthRecords/healthRecords.controller.js:5-31 | a truthy date that does not cast to a `Date` is 500, and otherwise the record is created; it belongs to the caller; a falsy date becomes the current time, a falsy blood pressure the empty reading, a falsy blood sugar, weight or height `null` and falsy notes `''`; every other truthy value is kept as sent |
| HealthRecords.ZeroWeightIsDropped | server/src/modules/healthRecords/healthRecords.controller.js:15 | a weight of `0` is stored as `null` |
| HealthRecords.RecordsOf | server/src/modules/healthRecords/healthRecords.controller.js:34-50 | exactly the patient's records (as many as the store holds for them), newest first |
| HealthRecords.Find | server/src/modules/healthRecords/healthRecords.controller.js:57 | the position of a record with that id, or none exactly when no record has it |
| HealthRecords.GetRecord | server/src/modules/healthRecords/healthRecords.controller.js:53-84 | a malformed id is 500 and a missing record 404; the record is returned exactly when the caller owns it or is a doctor, 403 otherwise |
| HealthRecords.FindOwned | server/src/modules/healthRecords/healthRecords.controller.js:92 | a record with that id and owner, or none exactly when there is no such record |
| HealthRecords.Patch | server/src/modules/healthRecords/healthRecords.controller.js:101-110 | a truthy date that does not cast fails the save (500); otherwise date and blood pressure change only to a truthy value; blood sugar, weight, height and notes change whenever sent, even to `0`, `''` or `null`; id and owner are kept |
| HealthRecords.PatchLaws | server/src/modules/healthRecords/healthRecords.controller.js:101-108 | an empty update changes nothing, and an update that saves, applied twice, is the update applied once |
| HealthRecords.UpdateRecord | server/src/modules/healthRecords/healthRecords.controller.js:87-123 | a malformed id is 500; a record the caller does not own is 404; a date that does not cast is 500; otherwise only that record is patched |
| HealthRecords.DeleteRecord | server/src/modules/healthRecords/healthRecords.controller.js:126-152 | a malformed id is 500; the delete succeeds exactly when the caller owns a record with that id (404 otherwise), and removes that record alone |
| HealthRecords.DoctorReadsButCannotWrite | server/src/modules/healthRecords/healthRecords.controller.js:67-131 | a doctor can read another patient's record, but updating or deleting it is 404 |
| HealthRecords.PatientRecords | server/src/modules/healthRecords/healthRecords.controller.js:155-195 | a non-doctor is 403 and then a malformed patient id 500; the records are returned exactly when the caller is a doctor with a confirmed, in-progress or completed appointment with the patient, 403 otherwise; they are that patient's records, newest first |
| HealthRecords.BookingAloneGivesNoAccess | server/src/modules/healthRecords/healthRecords.controller.js:169-180 | a booked or cancelled appointment alone gives the doctor no access |
| HealthRecords.CreatedRecordIsListed | server/src/modules/healthRecords/healthRecords.controller.js:5-84 | a record just created under a fresh id is among its owner's records and is what its owner reads back by that id |
| NotificationContext.UnreadCount | client/src/context/NotificationContext.jsx:146 | at most the length of the list, and zero exactly when every entry is read |
| NotificationContext.UnreadCountCons | client/src/context/NotificationContext.jsx:146 | an entry put in front adds one to the count exactly when it is unread |
| NotificationContext.Add | client/src/context/NotificationContext.jsx:75-84 | the new entry goes in front of the unchanged list, unread, with the time as its `id` and timestamp unless the caller supplies them, and the caller's other fields, its `action` among them, as given |
| NotificationContext.AddCountsUnread | client/src/context/NotificationContext.jsx:75-84 | adding raises the unread count by one unless the caller supplied `read: true` |
| NotificationContext.SameMillisecondIds | client/src/context/NotificationContext.jsx:77 | two entries added in the same millisecond share an `id`, so marking one read marks both |
| NotificationContext.MarkAll | client/src/context/NotificationContext.jsx:87-95 | every entry is read afterwards; entries already read are kept as they were, the others change only in `read` and `readAt` |
| NotificationContext.MarkAllLaws | client/src/context/NotificationContext.jsx:91-95 | nothing is unread after marking all, and marking all again changes nothing |
| NotificationContext.MarkOne | client/src/context/NotificationContext.jsx:107-125 | a missing or empty id changes nothing and sends nothing; otherwise every entry whose `_id` or `id` is the id is read at the current time, no other entry changes, and the id is sent |
| NotificationContext.ReadMatching | client/src/context/NotificationContext.jsx:116-122 | the list keeps its length and each entry is marked read exactly when it matches |
| NotificationContext.MarkOneCount | client/src/context/NotificationContext.jsx:116-122 | the unread count falls by exactly the number of unread matching entries, so it never rises |
| NotificationContext.BeginFetch | client/src/context/NotificationContext.jsx:38-51 | a fetch starts (setting the in-flight and loading flags) exactly when someone is signed in, none is in flight, and it is forced or 5000 ms have passed; otherwise nothing changes |
| NotificationContext.EndFetch | client/src/context/NotificationContext.jsx:53-62 | a response replaces the list and records the time, a failure keeps both; the flags are cleared either way |
| NotificationContext.UserChanged | client/src/context/NotificationContext.jsx:66-72 | the list is emptied, the rate limit reset, and a fetch starts exactly when none is already in flight and a user is signed in |
| NotificationContext.ClearedByEvent | client/src/context/NotificationContext.jsx:24-35 | the sign-out event empties the list, clears loading and resets the rate limit |
| NotificationContext.Clear | client/src/context/NotificationContext.jsx:134-136 | only the list changes, to empty |
| NotificationContext.ClearLaws | client/src/context/NotificationContext.jsx:24-136 | after clearing nothing is unread and clearing again changes nothing; the sign-out event is clearing plus resetting the loading flag and the rate limit |
| NotificationContext.FetchesAreSpaced | client/src/context/NotificationContext.jsx:45-56 | unforced fetches after a success start at least 5000 ms apart |
| NotificationContext.FailedMarkAllIsNotReverted | client/src/context/NotificationContext.jsx:99-103 | within 5000 ms of a fetch the revert after a refused mark-all does not run, so the list keeps showing everything read |
| NotificationContext.UserChangeDuringFetch | client/src/context/NotificationContext.jsx:42-72 | a change of user during a fetch empties the list without fetching for the new user, and the old fetch's response then fills it |
| NotificationPanel.ElapsedSeconds | client/src/components/notifications/NotificationPanel.jsx:114 | the whole seconds elapsed, rounded down |
| NotificationPanel.Bucket | client/src/components/notifications/NotificationPanel.jsx:116-120 | a negative age is "just now"; otherwise seconds below a minute, minutes below an hour, hours below a day, then days, each count rounded down |
| NotificationPanel.AgeOf | client/src/components/notifications/NotificationPanel.jsx:105-121 | a missing, empty or unreadable stamp is unknown; any other is bucketed by its elapsed seconds |
| NotificationPanel.AgeBuckets | client/src/components/notifications/NotificationPanel.jsx:114-117 | "just now" exactly for stamps in the future, and the age in seconds for one under a minute old |
| NotificationPanel.AgeMonotone | client/src/components/notifications/NotificationPanel.jsx:116-120 | as time passes the age never goes back to a smaller unit |
| NotificationPanel.AgeTextInjective | client/src/components/notifications/NotificationPanel.jsx:117-120 | two different ages never read the same |
| NotificationPanel.DigitsThenSpace | client/src/components/notifications/NotificationPanel.jsx:117-120 | a count followed by a space reads back as that count |
| NotificationPanel.KindOf | client/src/components/notifications/NotificationPanel.jsx:27-44 | the verification type is recognised only in upper case |
| NotificationPanel.IconOf | client/src/components/notifications/NotificationPanel.jsx:10-45 | a verification with an action gets the action's icon, with a check mark for an unknown one; any other entry gets its type's icon, a bell for an unknown type |
| NotificationPanel.Label | client/src/components/notifications/NotificationPanel.jsx:47-66 | the label is "System" exactly for an unknown type |
| NotificationPanel.CaseAliases | client/src/components/notifications/NotificationPanel.jsx:27-62 | the upper- and lower-case spellings of the four shared types get the same icon and label, while lower-case `verification` is unknown |
| NotificationPanel.HandleClick | client/src/components/notifications/NotificationPanel.jsx:124-154 | a click always marks the entry read and closes the panel, and navigates exactly when the link passes the guard, to that link |
| NotificationPanel.GuardIsRoutePrefix | client/src/components/notifications/NotificationPanel.jsx:132-139 | the guard accepts a string exactly when it starts with one of the known routes |
| NotificationPanel.AbsoluteLinkIgnored | client/src/components/notifications/NotificationPanel.jsx:136 | an absolute URL is never followed |
| NotificationPanel.UnknownRouteIgnored | client/src/components/notifications/NotificationPanel.jsx:138-139 | a path outside the known routes is never followed |
| NotificationPanel.KnownRouteFollowed | client/src/components/notifications/NotificationPanel.jsx:138-142 | a path under a known route is followed |
| NotificationBell.Badge | client/src/components/notifications/NotificationBell.jsx:64-68 | no badge exactly at zero; the count's own digits up to 99 and `99+` above, never more than three characters |
| NotificationBell.DecimalShort | client/src/components/notifications/NotificationBell.jsx:66 | a count below 100 has at most two digits |
| NotificationBell.BellBadge | client/src/components/notifications/NotificationBell.jsx:12 | the bell shows no badge exactly when every entry is read |
| NotificationBell.OpenAt | client/src/components/notifications/NotificationBell.jsx:42-51 | each time the effect runs while the panel is open, it fetches exactly when more than 10000 ms have passed since the last fetch it asked for, and only then moves that mark |
| NotificationBell.OpenFetchesAreSpaced | client/src/components/notifications/NotificationBell.jsx:42-51 | however often the effect runs while the panel is open, the fetches it asks for are more than 10000 ms apart |
| NotificationBell.ClickId | client/src/components/notifications/NotificationBell.jsx:31 | the server id when it is non-empty, the local id otherwise |
| NotificationBell.ClickMarksClicked | client/src/components/notifications/NotificationBell.jsx:29-39 | a click on an entry with a usable id marks it read and sends that id; an entry with neither id is skipped |
| AutoNotifications.AppointmentKeys | client/src/hooks/useAutoNotifications.jsx:28-60 | over the appointments the check reaches (`AppointmentsReached`), a `confirmed` key for each confirmed appointment, a `cancelled` key for each cancelled one, and none for any other status |
| AutoNotifications.PaymentKeys | client/src/hooks/useAutoNotifications.jsx:80-123 | over the appointments the payment check gets through (`PaymentsReached`), for each whose payment is found, a `success` key for a successful payment and a `refunded` key for a refunded one, and nothing else |
| AutoNotifications.PrescriptionKeys | client/src/hooks/useAutoNotifications.jsx:145-158 | over the prescriptions the check reaches (`PrescriptionsReached`), one key per prescription, in order |
| AutoNotifications.AppointmentsFor | client/src/hooks/useAutoNotifications.jsx:17-22 | a patient's own appointments, a doctor's, and for other roles none, except that the payment check reads the doctor list for every role but `PATIENT` (lines 72-74) |
| AutoNotifications.PrescriptionsFor | client/src/hooks/useAutoNotifications.jsx:135-140 | a patient's own prescriptions, a doctor's, and none for other roles |
| AutoNotifications.AppointmentsReached | client/src/hooks/useAutoNotifications.jsx:28-60 | the appointments handled are the prefix before the first one whose message cannot name its party (lines 38 and 54 read `.name` of a null doctor or patient) for a key not yet held |
| AutoNotifications.PaymentsReached | client/src/hooks/useAutoNotifications.jsx:80-123 | an appointment's payment is handled exactly when its message can be built; each appointment has its own `try` (lines 81 and 119-122), so a throw skips only that one |
| AutoNotifications.PrescriptionsReached | client/src/hooks/useAutoNotifications.jsx:145-158 | the prescriptions handled are the prefix before the first one with a null doctor (line 154) and a key not yet held |
| AutoNotifications.WantedByKind | client/src/hooks/useAutoNotifications.jsx:28-158 | a wanted key comes from the check of its own kind |
| AutoNotifications.Wanted | client/src/hooks/useAutoNotifications.jsx:14-14 | nothing is wanted when nobody is signed in (the same guard at lines 69 and 132) |
| AutoNotifications.Missing | client/src/hooks/useAutoNotifications.jsx:31-35 | a key is added exactly when it is wanted and the list the check compares with holds no matching entry |
| AutoNotifications.AddAll | client/src/hooks/useAutoNotifications.jsx:36-41 | each key adds one unread entry carrying it, in front of the unchanged old list, the last key first |
| AutoNotifications.AddAllKeeps | client/src/hooks/useAutoNotifications.jsx:36-41 | an entry found before adding is still found after |
| AutoNotifications.AddAllFinds | client/src/hooks/useAutoNotifications.jsx:36-41 | every key added is found afterwards |
| AutoNotifications.CarriesOnly | client/src/hooks/useAutoNotifications.jsx:31-41 | an entry carrying a key matches that key and no other |
| AutoNotifications.AddAllOnly | client/src/hooks/useAutoNotifications.jsx:36-41 | a key found after adding was found before or is one of the keys added |
| AutoNotifications.Tick | client/src/hooks/useAutoNotifications.jsx:166-182 | with nobody signed in the list is unchanged; otherwise entries are only put in front of it |
| AutoNotifications.ConfirmedAppointmentWanted | client/src/hooks/useAutoNotifications.jsx:28-41 | a patient's appointment calls for its `confirmed` key exactly when it is confirmed and its doctor can be named or the snapshot already holds the key |
| AutoNotifications.NullDoctorEndsCheck | client/src/hooks/useAutoNotifications.jsx:28-62 | a confirmed appointment with a null doctor and no key ends the appointment check, so the next appointment gets no key, while the payment check still reaches that next one |
| AutoNotifications.StaleSnapshotDuplicates | client/src/hooks/useAutoNotifications.jsx:166-182 | as written, a wanted key the sign-in snapshot lacks is held twice after two runs of the interval |
| AutoNotifications.AddAllTwice | client/src/hooks/useAutoNotifications.jsx:36-41 | adding the same keys twice holds each of them twice |
| AutoNotifications.FreshTick | client/src/hooks/useAutoNotifications.jsx:31-35 | deduplicating against the current list, every wanted key is held afterwards, a key held afterwards was held before or wanted, and the old list is kept behind the new entries |
| AutoNotifications.FreshTickIdempotent | client/src/hooks/useAutoNotifications.jsx:166-182 | with the current list and distinct record ids, a second run on the same answers adds nothing |
| AutoNotifications.AppointmentsReachedStable | client/src/hooks/useAutoNotifications.jsx:28-60 | with distinct ids, growing the list by keys that were wanted does not change how far the appointment check gets |
| AutoNotifications.PrescriptionsReachedStable | client/src/hooks/useAutoNotifications.jsx:145-158 | with distinct ids, growing the list by keys that were wanted does not change how far the prescription check gets |
| AutoNotifications.PaymentKeysHeld | client/src/hooks/useAutoNotifications.jsx:80-123 | once every payment key handled against the list is held, every payment key handled against the grown list is held too |
| AutoNotifications.WantedHeld | client/src/hooks/useAutoNotifications.jsx:166-182 | with distinct ids, once a run has added the wanted keys, everything wanted against the grown list is held |
| AutoNotifications.NoUserNoNotifications | client/src/hooks/useAutoNotifications.jsx:167 | nothing is added when nobody is signed in |
| ClientLists.RefId | client/src/pages/doctor/DoctorPrescriptions.jsx:30 | a raw id is itself, a populated record gives its id when non-empty and no id otherwise, and `null` is an error exactly (reading `._id` throws) |
| ClientLists.WrittenIds | client/src/pages/doctor/DoctorPrescriptions.jsx:30 | fails exactly when some record's appointment is `null`; otherwise one id per record, each that record's reference read as an id |
| ClientLists.WrittenIdsAppend | client/src/pages/doctor/DoctorPrescriptions.jsx:30 | one more record adds its id at the end |
| ClientLists.PrescriptionsPageOf | client/src/pages/doctor/DoctorPrescriptions.jsx:19-48 | fails exactly when an id cannot be read; the history is every prescription, and an appointment is pending exactly when it is completed and no prescription names it; the pending list is the filter of the appointments, so it keeps their order (`Seqs.FilterAppend`) |
| ClientLists.PopulatedOrRawAlike | client/src/pages/doctor/DoctorPrescriptions.jsx:30-37 | a prescription names its appointment the same whether the appointment arrives populated or as a bare id |
| ClientLists.PrescribingLeavesList | client/src/pages/doctor/DoctorPrescriptions.jsx:33-39 | a new prescription takes exactly its appointment off the pending list |
| ClientLists.ReviewsPageOf | client/src/pages/patient/PatientReviews.jsx:19-51 | fails exactly when an id cannot be read; the submitted list is every review, and an appointment is pending exactly when it is completed, the user's own and not reviewed; the pending list keeps the appointments' order |
| ClientLists.CompletedIgnoresCase | client/src/pages/patient/PatientReviews.jsx:35-36 | two statuses that differ only in letter case are both completed or both not |
| ClientLists.CompletedIgnoresSpace | client/src/pages/patient/PatientReviews.jsx:35-36 | whitespace in front of a status does not change whether it counts as completed |
| ClientLists.MissingStatusNotCompleted | client/src/pages/patient/PatientReviews.jsx:35 | an appointment with no status is never completed |
| ClientLists.OwnerTest | client/src/pages/patient/PatientReviews.jsx:37-38 | the owner test accepts the patient populated or as a bare id, and refuses a populated patient without an id and a missing patient |
| ClientLists.Stars | client/src/pages/patient/PatientReviews.jsx:58-71 | five stars, star `i` filled exactly when `i` is at most the rating |
| ClientLists.StarsArePrefix | client/src/pages/patient/PatientReviews.jsx:61-64 | the filled stars come first and number the whole part of the rating, between none and five |
| CreatePrescription.Initial | client/src/pages/doctor/CreatePrescription.jsx:11-13 | the form opens with exactly one blank line |
| CreatePrescription.AddMedicine | client/src/pages/doctor/CreatePrescription.jsx:33-35 | one blank line more, at the end, with the old lines kept |
| CreatePrescription.SpliceOne | client/src/pages/doctor/CreatePrescription.jsx:39-40 | removal as splice does it: an index at or past the end removes nothing; otherwise, with a negative index counted from the end, exactly that element goes and the others keep their order |
| CreatePrescription.RemoveMedicine | client/src/pages/doctor/CreatePrescription.jsx:37-42 | ignored while one line is left; otherwise a line in range is removed and the others keep their order |
| CreatePrescription.ChangeMedicine | client/src/pages/doctor/CreatePrescription.jsx:44-48 | only the named input of the named line changes; an index outside the list changes nothing |
| CreatePrescription.NeverEmpty | client/src/pages/doctor/CreatePrescription.jsx:33-48 | however the form is used, starting from at least one line it keeps at least one |
| CreatePrescription.FormNeverEmpty | client/src/pages/doctor/CreatePrescription.jsx:11-48 | from the form's opening state it always holds a line |
| CreatePrescription.RemoveUndoesAdd | client/src/pages/doctor/CreatePrescription.jsx:33-42 | removing the line just added gives back the list as it was |
| CreatePrescription.CompleteIffFields | client/src/pages/doctor/CreatePrescription.jsx:55-56 | the four trim tests of a line are the line being complete |
| CreatePrescription.CanSubmitIffComplete | client/src/pages/doctor/CreatePrescription.jsx:54-61 | the submission gate accepts exactly the lists whose every line is complete |
| CreatePrescription.CompleteIffNoSpaceOnly | client/src/pages/doctor/CreatePrescription.jsx:55-56 | a line is complete exactly when no input is empty or whitespace only |
| CreatePrescription.InitialBlocked | client/src/pages/doctor/CreatePrescription.jsx:11-13 | the form as first opened cannot be submitted |
| CreatePrescription.PatientIdOf | client/src/pages/doctor/CreatePrescription.jsx:66 | absent exactly when the appointment has not loaded, `null` exactly for a `null` patient, and an id exactly when the reference reads as that id |
| CreatePrescription.Submit | client/src/pages/doctor/CreatePrescription.jsx:50-75 | blocked, with the fill-in error, exactly when some line is incomplete; otherwise the payload carries the appointment, the patient id, the lines and the notes as given |
| ManageDoctors.StatusTone | client/src/pages/admin/ManageDoctors.jsx:180-187 | gray exactly for a status other than `PENDING`, `VERIFIED` and `REJECTED` |
| ManageDoctors.StatusBadge | client/src/pages/admin/ManageDoctors.jsx:170-191 | the orange SUSPENDED badge exactly when the account carries a suspension stamp, whatever its status; otherwise the status text as it is |
| ManageDoctors.ActiveBadge | client/src/pages/admin/ManageDoctors.jsx:193-215 | Deleted exactly for a deleted account, Suspended exactly for a stamped one that is not deleted, Active exactly for the rest |
| ManageDoctors.ButtonFor | client/src/pages/admin/ManageDoctors.jsx:336-352 | the Suspend button exactly when the account carries no suspension stamp, Unsuspend otherwise |
| ManageDoctors.SuspendedRowShowsSuspension | client/src/pages/admin/ManageDoctors.jsx:170-215 | after a successful suspension the row reads SUSPENDED, offers Unsuspend and reads Suspended unless deleted |
| ManageDoctors.UnsuspendedRowShowsStatus | client/src/pages/admin/ManageDoctors.jsx:170-215 | after a successful unsuspension the row shows the status again, offers Suspend and reads Active unless deleted |
| ManageDoctors.InitialView | client/src/pages/admin/ManageDoctors.jsx:14-23 | no filter, page 1, ten doctors a page |
| ManageDoctors.ChangeFilter | client/src/pages/admin/ManageDoctors.jsx:57-63 | only the one filter takes the value, and the page goes back to 1 |
| ManageDoctors.ClearFilters | client/src/pages/admin/ManageDoctors.jsx:269-272 | every filter empty, back to page 1, page size and total kept |
| ManageDoctors.ChangePage | client/src/pages/admin/ManageDoctors.jsx:65-67 | only the page moves |
| ManageDoctors.ClearUndoesChanges | client/src/pages/admin/ManageDoctors.jsx:57-63 | clearing after a filter change gives the same view as clearing before it |
| ManageDoctors.NextIffLaterPage | client/src/pages/admin/ManageDoctors.jsx:378-379 | Next is enabled exactly when a later page exists among the `ceil(total / limit)` pages of the total that `getAllDoctors` counts with its `$count` pipeline (lines 554-557 of the admin controller) |
| ManageDoctors.ShowingMatchesWindow | client/src/pages/admin/ManageDoctors.jsx:368 | on any page of the range the "Showing from to" line spans exactly the doctors of that page's window, within the total |
| ManageDoctors.PromptOr | client/src/pages/admin/ManageDoctors.jsx:129 | a cancelled or empty answer gives the fallback, any other answer itself |
| ManageDoctors.BodyUnder | client/src/pages/admin/ManageDoctors.jsx:130 | the body holds the admin's text under the one given key and nothing else |
| ManageDoctors.PressSuspend | client/src/pages/admin/ManageDoctors.jsx:116-140 | an invalid id is refused on the page; a request is sent exactly for a valid id the admin confirms, with the prompted reason or the fallback under the given key (the page uses `note`) |
| ManageDoctors.PressUnsuspend | client/src/pages/admin/ManageDoctors.jsx:142-166 | an invalid id is refused on the page; a request is sent exactly for a valid id the admin confirms, with the prompted reason or the fallback under `note` |
| ManageDoctors.SuspendAlwaysRejected | client/src/pages/admin/ManageDoctors.jsx:129-130 | every suspend request the page sends is refused 400 by the strict schema and changes nothing |
| ManageDoctors.CorrectedSuspendPassesSchema | server/src/modules/admin/admin.validation.js:18-21 | the corrected body always passes the suspend schema |
| ManageDoctors.CorrectedSuspendSucceeds | server/src/modules/admin/admin.controller.js:252-347 | with the corrected body, suspending an existing doctor with a reason that is not blank succeeds |
| ManageDoctors.UnsuspendPassesSchema | server/src/modules/admin/admin.validation.js:24-26 | every unsuspend request the page sends passes the unsuspend schema |

## Left out

- Slot, appointment, payment and refund lifecycles: their controllers are not part of this model. Appointment and payment statuses are opaque strings given to the eligibility rules.
- E-mail sending, password hashing and comparison, JWT authentication: external I/O and cryptography. `AdminProfile.ChangePassword` takes the result of the password check as a parameter; the caller's identity and role arrive as a `Caller`.
- Mongo query mechanics (populate, aggregation, regular-expression text search): lookups are modelled by what they select. Case-insensitive regular-expression matching is the parameter `matches`. Listings that Mongo returns in an unspecified order are sets.
- Floating point: ratings and fees are `real`. `toFixed(1)` is modelled as rounding half up to tenths. Binary rounding of the stored average is not modelled.
- Unicode: `trim`, `toUpperCase` and `\s` are modelled on ASCII only.
- Concurrency and timing: the check-then-create races in `createReview` and `createReport`, `setInterval` polling, overlapping fetches, and the order in which unawaited requests complete. The model runs each handler and each client action to completion, one at a time.
- Clock reads, `Date` parsing and locale formatting: passed in as parameters.
- React rendering, styling and the UI kit. `getTypeColor` in the notification panel and the CSS classes of the badges are shown only through the badge tone they choose. The status-class lookup in `ManageDoctors` also hits inherited object keys such as `constructor`; that is not modelled (any status other than the three known ones is gray).
- Message texts built from names, dates and amounts in the client-generated notifications: only their type, ids, status and read state are modelled, and of the names only whether the party is there (a null party makes the message throw).
- Fields a caller passes to `addNotification` beyond type, ids, status, link, `read`, `id` and `timestamp`: they do not affect any rule modelled.
- `handleMedicineChange` copies the medicine list shallowly, so it also writes into the line object of the previous state. React state is modelled as immutable values, so this aliasing is not modelled.
- The form fields of `ManageDoctors`' inline profile editor (`handleEdit`, `handleSaveEdit`): the request is modelled on the server side by `AdminDoctors.PlanEdit`.
- Debug logging and the seed and migration scripts: no effect on the rules.
- Client-side conversion of ids: server ids are abstract numbers; client ids are strings compared for equality.
- `getMyProfile`: a plain lookup of the caller's profile with no rule beyond 404.
- `AutoNotifications.Wanted`: its contract states only that nobody signed in wants nothing. Its contents are given by `AppointmentKeys`, `PaymentKeys` and `PrescriptionKeys` over the records each check reaches (`AppointmentsReached`, `PaymentsReached`, `PrescriptionsReached`), split by `WantedByKind`, and checked through `ConfirmedAppointmentWanted` and `NullDoctorEndsCheck`.
- `AutoNotifications.Tick`: its contract states only that the old list is kept behind the new entries. What it adds is stated by `Missing` and `AddAll`, and by the lemma `StaleSnapshotDuplicates`.
- `Reviews.Summarize`: states rounding to one decimal on reals, not the binary floating-point result of `toFixed`.
- `DoctorController.PublicDoctors`: the text filters are only as exact as the parameters that stand for the regular expression: `validPattern` says whether `new RegExp` accepts a pattern and `matches` is the case-insensitive test.
- `Reports.GetReports`: a `doctorId` filter that is not a well-formed ObjectId makes Mongo's cast fail with a 500; the model compares the filter as a plain value and does not model that failure.
- `Pagination.ParamOr`: query strings that `parseInt` reads only in part, such as `limit=10abc` or `page=1.5`, are outside `Option<int>`. The handlers compute the skip by arithmetic on the raw strings (reports.controller.js:94, admin.controller.js:489), so `10abc` gives a `NaN` skip and `1.5` a page between pages, while the limit goes through `parseInt`; the model gives one integer to both.
- `AutoNotifications.FreshTickIdempotent`: promised only when the appointment and prescription ids in the answers are distinct, as the server's ObjectIds are; with repeated ids a record cut off by a throw on one run can be reached on the next.

## Findings

| source | as written | input that shows it | evidently intended | confidence | as-written member | corrected member |
|---|---|---|---|---|---|---|
| client/src/pages/admin/ManageDoctors.jsx:129-130 | the suspend button sends `{ note: reason }`, but the strict suspend schema (server/src/modules/admin/admin.validation.js:18-21) requires `reason` and allows only `reason` and `note` | any confirmed suspension of any doctor, e.g. with the default reason `Doctor suspended by admin`: the body has no `reason`, so the route answers 400 and nothing changes | the reason is sent under `reason`, so a suspension with a non-blank reason goes through | high (not executed) | ManageDoctors.SuspendAlwaysRejected | ManageDoctors.CorrectedSuspendSucceeds |
| server/src/modules/reports/reports.controller.js:220-227 | `updateReport` saves the report, then writes an audit entry with action `UPDATE_REPORT`, which the audit log's enum (server/src/models/AdminAuditLog.js:10-14) does not contain | setting an `OPEN` report to `ACTIONED`: the report is saved, the audit write fails validation, and the admin gets 500 | the update answers with the saved report and logs it | high (not executed) | Reports.ClosingReportShowsError | Reports.UpdateReportCorrected |
| server/src/modules/doctor/doctor.controller.js:199-212 | the comment says the pending list includes re-verification requests, but the query keeps only active users, and `requestReverification` deactivates the account (line 334) | a suspended doctor requests re-verification: the profile is `PENDING`, the account inactive, and the doctor is not on the admin's pending list | every `PENDING` profile of a doctor is listed, re-verification requests included | medium (not executed) | Lifecycle.ReverificationHidesFromPendingList | DoctorController.PendingDoctorsWithRequests |
| client/src/hooks/useAutoNotifications.jsx:166-182 | the interval set up once per user calls the checks of that render, which compare against the notification list as it was then | a confirmed appointment the sign-in list does not hold: each five-minute run adds it again, so after two runs it is listed twice | each run compares against the current list, so a notification is added once | medium (not executed) | AutoNotifications.StaleSnapshotDuplicates | AutoNotifications.FreshTickIdempotent |
