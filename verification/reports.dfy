/** Patient reports against a doctor and the admin's handling of them:
    `createReport`, `getReports`, `getReportById` and `updateReport`.
 */
module Reports {

  import opened Wrappers
  import opened Js
  import opened Text
  import opened Entities
  import opened Profiles
  import Seqs
  import Pagination
  import Validation
  import AuditLog
  import NotificationModel
  import Reviews

  /** A stored report; `createdAt` is in milliseconds and an `internalNote`
      of `None` is a stored `null`. */
  datatype Report = Report(
    id: Id,
    patientId: Id,
    doctorId: Id,
    appointmentId: Id,
    reason: string,
    description: string,
    status: string,
    internalNote: Option<string>,
    createdAt: int)

  /** What the report schema's validators demand before a save succeeds:
      a reason and a status from their enums and a non-empty description. */
  predicate ValidReport(r: Report) {
    && r.reason in Validation.ReportReasons
    && r.description != ""
    && r.status in Validation.ReportStatuses
  }

  /** `Report.findOne({ appointmentId })` finds something. */
  predicate HasReport(reports: seq<Report>, appointmentId: Id) {
    exists i | 0 <= i < |reports| :: reports[i].appointmentId == appointmentId
  }

  /** At most one report per appointment. The schema has no unique index for
      this; only the handler's check keeps it. */
  predicate OnePerAppointment(reports: seq<Report>) {
    forall i, j :: 0 <= i < j < |reports| ==> reports[i].appointmentId != reports[j].appointmentId
  }

  /** Report ids are distinct. */
  predicate DistinctIds(reports: seq<Report>) {
    forall i, j :: 0 <= i < j < |reports| ==> reports[i].id != reports[j].id
  }

  // ---------------------------------------------------------------------------
  // createReport

  /** The body of a report submission. An id is `None` when the string
      sent is not a well-formed id: the schema only asks for non-empty
      strings. */
  datatype ReportRequest = ReportRequest(doctorId: Option<Id>, appointmentId: Option<Id>, reason: string, description: string)

  /** The appointment the request names exists. */
  predicate Known(appointments: map<Id, Appointment>, req: ReportRequest) {
    req.appointmentId.Some? && req.appointmentId.value in appointments
  }

  /** The appointment the request names is the caller's, with the doctor the
      request names. */
  predicate Matches(appointments: map<Id, Appointment>, patientId: Id, req: ReportRequest)
    requires Known(appointments, req)
  {
    var appt := appointments[req.appointmentId.value];
    appt.patientId == patientId && req.doctorId == Some(appt.doctorId)
  }

  /** The name the admin notification uses: the doctor's account name, or
      `Doctor <id>` when there is no account. */
  function DoctorName(dir: Directory, doctorId: Id): (name: string)
    ensures doctorId in dir.users ==> name == dir.users[doctorId].name
    ensures doctorId !in dir.users ==> name == "Doctor " + Decimal(doctorId)
  {
    if doctorId in dir.users then dir.users[doctorId].name else "Doctor " + Decimal(doctorId)
  }

  /** ` (License: <no>)` when the doctor has a profile with a licence
      number, otherwise nothing. */
  function LicenseInfo(dir: Directory, doctorId: Id): (info: string)
    ensures info != "" <==> doctorId in dir.profiles && dir.profiles[doctorId].licenseNo != ""
    ensures info != "" ==> info == " (License: " + dir.profiles[doctorId].licenseNo + ")"
  {
    if doctorId in dir.profiles && dir.profiles[doctorId].licenseNo != "" then
      " (License: " + dir.profiles[doctorId].licenseNo + ")"
    else ""
  }

  /** The notification every admin gets about a new report. */
  function NewReportDraft(dir: Directory, reportId: Id, doctorId: Id, patientId: Id): (d: NotificationModel.Draft)
    ensures d.recipientUserId.None? && d.recipientRole == Some(NotificationModel.ToAdmin)
    ensures d.kind == NotificationModel.System
    ensures d.metadata.Some? && "reportId" in d.metadata.value && "doctorName" in d.metadata.value
    ensures d.metadata.value["reportId"] == NotificationModel.MId(reportId)
    ensures d.metadata.value["doctorName"] == NotificationModel.MStr(DoctorName(dir, doctorId))
    ensures d.message == "A new report has been submitted against Dr. " + DoctorName(dir, doctorId) + LicenseInfo(dir, doctorId)
  {
    var name := DoctorName(dir, doctorId);
    NotificationModel.Draft(
      None, Some(NotificationModel.ToAdmin), NotificationModel.System, "New Doctor Report",
      "A new report has been submitted against Dr. " + name + LicenseInfo(dir, doctorId),
      Some(map[
        "reportId" := NotificationModel.MId(reportId),
        "doctorId" := NotificationModel.MId(doctorId),
        "doctorName" := NotificationModel.MStr(name),
        "patientId" := NotificationModel.MId(patientId)]))
  }

  /** `createReport` by patient `patientId` at time `now`; the new report gets
      id `newId`. The checks run in this order and the first failure
      answers: the appointment id is malformed (the lookup throws, 500), the
      appointment does not exist (404), it is not the caller's (403), the
      doctor in the request is not the appointment's doctor, compared as
      strings so a malformed doctor id never matches (400), the appointment
      already has a report (400). The appointment's status is not consulted.
      A report the schema refuses is a 500. On success the result is the
      stored list and the notification for the admins. */
  function CreateReport(reports: seq<Report>, appointments: map<Id, Appointment>, dir: Directory,
                        patientId: Id, req: ReportRequest, newId: Id, now: int)
    : (r: Result<(seq<Report>, NotificationModel.Draft)>)
    ensures req.appointmentId.None? ==> r == Err(InternalError)
    ensures req.appointmentId.Some? && !Known(appointments, req) ==> r == Err(NotFound)
    ensures (Known(appointments, req)
             && appointments[req.appointmentId.value].patientId != patientId) ==> r == Err(Forbidden)
    ensures (Known(appointments, req)
             && appointments[req.appointmentId.value].patientId == patientId
             && req.doctorId != Some(appointments[req.appointmentId.value].doctorId)) ==> r == Err(BadRequest)
    ensures (Known(appointments, req) && Matches(appointments, patientId, req)
             && HasReport(reports, req.appointmentId.value)) ==> r == Err(BadRequest)
    ensures r.Ok? <==>
      && Known(appointments, req) && Matches(appointments, patientId, req)
      && !HasReport(reports, req.appointmentId.value)
      && req.reason in Validation.ReportReasons && req.description != ""
    ensures r.Err? ==> r.code in {NotFound, Forbidden, BadRequest, InternalError}
    ensures r.Ok? ==> |r.value.0| == |reports| + 1 && r.value.0[..|reports|] == reports
    ensures r.Ok? ==>
      var added := r.value.0[|reports|];
      && added == Report(newId, patientId, req.doctorId.value, req.appointmentId.value, req.reason, req.description,
                         "OPEN", Some(""), now)
      && ValidReport(added)
    ensures r.Ok? ==> r.value.1 == NewReportDraft(dir, newId, req.doctorId.value, patientId)
    ensures r.Ok? && OnePerAppointment(reports) ==> OnePerAppointment(r.value.0)
  {
    if req.appointmentId.None? then Err(InternalError)
    else if req.appointmentId.value !in appointments then Err(NotFound)
    else
      var id := req.appointmentId.value;
      var appt := appointments[id];
      if appt.patientId != patientId then Err(Forbidden)
      else if req.doctorId != Some(appt.doctorId) then Err(BadRequest)
      else if HasReport(reports, id) then Err(BadRequest)
      else
        var report := Report(newId, patientId, appt.doctorId, id, req.reason, req.description,
                             "OPEN", Some(""), now);
        if !ValidReport(report) then Err(InternalError)
        else
          assert (reports + [report])[..|reports|] == reports;
          Ok((reports + [report], NewReportDraft(dir, newId, appt.doctorId, patientId)))
  }

  /** Behind the create schema (a listed reason, a non-empty description)
      the only 500 left is a malformed appointment id, and a submission
      succeeds exactly when the appointment is the caller's, with the doctor
      named, and has no report yet. */
  lemma SchemaRequestSaves(reports: seq<Report>, appointments: map<Id, Appointment>, dir: Directory,
                           patientId: Id, req: ReportRequest, newId: Id, now: int)
    requires req.reason in Validation.ReportReasons && |req.description| >= 1
    ensures CreateReport(reports, appointments, dir, patientId, req, newId, now) == Err(InternalError) <==>
      req.appointmentId.None?
    ensures CreateReport(reports, appointments, dir, patientId, req, newId, now).Ok? <==>
      Known(appointments, req) && Matches(appointments, patientId, req) && !HasReport(reports, req.appointmentId.value)
  {
  }

  /** Unlike a review, a report needs no completed appointment: the patient
      of a booked appointment that has no report yet may report its doctor,
      though they may not review them. */
  lemma ReportNeedsNoCompletion(reports: seq<Report>, reviews: seq<Reviews.Review>, appointments: map<Id, Appointment>,
                                dir: Directory, patient: Caller, req: ReportRequest, rating: real, newId: Id, now: int)
    requires patient.role == Patient
    requires Known(appointments, req) && req.doctorId.Some?
    requires appointments[req.appointmentId.value] == Appointment(patient.id, req.doctorId.value, "BOOKED")
    requires !HasReport(reports, req.appointmentId.value)
    requires req.reason in Validation.ReportReasons && req.description != ""
    ensures CreateReport(reports, appointments, dir, patient.id, req, newId, now).Ok?
    ensures Reviews.CreateReview(reviews, appointments, patient,
                                 Reviews.ReviewRequest(req.appointmentId, rating, None), now) == Err(BadRequest)
  {
  }

  /** After a successful submission the appointment has exactly one report. */
  lemma {:induction false} ExactlyOneAfterCreate(reports: seq<Report>, appointments: map<Id, Appointment>, dir: Directory,
                                                 patientId: Id, req: ReportRequest, newId: Id, now: int)
    requires CreateReport(reports, appointments, dir, patientId, req, newId, now).Ok?
    ensures var r := CreateReport(reports, appointments, dir, patientId, req, newId, now).value.0;
      Seqs.Count(r, (x: Report) => x.appointmentId == req.appointmentId.value) == 1
  {
    var r := CreateReport(reports, appointments, dir, patientId, req, newId, now).value.0;
    var p := (x: Report) => x.appointmentId == req.appointmentId.value;
    assert r == reports + [r[|reports|]];
    Seqs.CountAppend(reports, [r[|reports|]], p);
    assert Seqs.Count(reports, p) == 0;
    assert Seqs.Count([r[|reports|]], p) == 1 by {
      assert [r[|reports|]][1..] == [];
    }
  }

  // ---------------------------------------------------------------------------
  // getReports and getReportById

  /** The query filters; an empty or missing parameter is `None` or `''`,
      and both mean "no filter". */
  datatype ReportFilter = ReportFilter(status: Option<string>, reason: Option<string>, doctorId: Option<Id>)

  /** The Mongo query built from the filters. */
  function Matching(f: ReportFilter): Report -> bool {
    (x: Report) =>
      && (!Filled(f.status) || x.status == f.status.value)
      && (!Filled(f.reason) || x.reason == f.reason.value)
      && (f.doctorId.None? || x.doctorId == f.doctorId.value)
  }

  /** The sort key `createdAt`. */
  function CreatedAt(x: Report): int {
    x.createdAt
  }

  /** A page of reports with the pagination block; `pages` is `None` where
      `Math.ceil(total / limit)` is not a finite number (a zero limit),
      which the JSON reply shows as `null`. */
  datatype ReportPage = ReportPage(items: seq<Report>, page: int, limit: int, total: nat, pages: Option<int>)

  /** `getReports`: the matching reports newest first, page 1 and limit 10
      when the parameters are missing; a page that makes `skip` negative is
      a store error. */
  function GetReports(reports: seq<Report>, f: ReportFilter, pageParam: Option<int>, limitParam: Option<int>)
    : (r: Result<ReportPage>)
    ensures r.Err? <==> Pagination.Skip(pageParam.GetOr(1), limitParam.GetOr(10)) < 0
    ensures r.Err? ==> r.code == InternalError
    ensures r.Ok? ==> r.value.page == pageParam.GetOr(1) && r.value.limit == limitParam.GetOr(10)
    ensures r.Ok? ==> r.value.total == Seqs.Count(reports, Matching(f))
    ensures r.Ok? ==>
      Pagination.Window(Seqs.SortedFilter(reports, Matching(f), CreatedAt),
                        Pagination.Skip(r.value.page, r.value.limit), r.value.limit) == Ok(r.value.items)
    ensures r.Ok? ==> forall i :: 0 <= i < |r.value.items| ==>
      Matching(f)(r.value.items[i]) && r.value.items[i] in reports
    ensures r.Ok? ==> multiset(r.value.items) <= multiset(reports)
    ensures r.Ok? ==> Seqs.SortedDesc(r.value.items, CreatedAt)
    ensures r.Ok? && r.value.limit > 0 ==> |r.value.items| <= r.value.limit
    ensures r.Ok? ==> (r.value.pages.None? <==> r.value.limit == 0)
    ensures r.Ok? && r.value.limit != 0 ==> r.value.pages == Some(Pagination.Pages(r.value.total, r.value.limit))
  {
    var page := pageParam.GetOr(1);
    var limit := limitParam.GetOr(10);
    var sorted := Seqs.SortedFilter(reports, Matching(f), CreatedAt);
    var skip := Pagination.Skip(page, limit);
    var items :- Pagination.Window(sorted, skip, limit);
    Seqs.SortedFilterPermutes(reports, Matching(f), CreatedAt);
    Pagination.WindowFacts(reports, sorted, Matching(f), CreatedAt, skip, limit);
    Ok(ReportPage(items, page, limit, |sorted|, if limit == 0 then None else Some(Pagination.Pages(|sorted|, limit))))
  }

  /** With no filter every report is counted. */
  lemma {:induction false} NoFilterCountsAll(reports: seq<Report>)
    ensures Seqs.Count(reports, Matching(ReportFilter(None, None, None))) == |reports|
  {
    Seqs.CountIsFilterLength(reports, Matching(ReportFilter(None, None, None)));
    Seqs.FilterAll(reports, Matching(ReportFilter(None, None, None)));
  }

  /** The index of the report with id `id`. */
  function Find(reports: seq<Report>, id: Id): (k: Option<nat>)
    ensures k.Some? ==> k.value < |reports| && reports[k.value].id == id
    ensures k.None? ==> forall i :: 0 <= i < |reports| ==> reports[i].id != id
  {
    var k := Seqs.IndexWhere(reports, (x: Report) => x.id == id);
    if k < |reports| then Some(k) else None
  }

  /** With distinct ids, the report found is the only one with that id. */
  lemma FindUnique(reports: seq<Report>, id: Id, i: nat)
    requires DistinctIds(reports)
    requires i < |reports| && reports[i].id == id
    ensures Find(reports, id) == Some(i)
  {
  }

  /** `getReportById`: a malformed id is 400, an unknown one 404. */
  function GetReportById(reports: seq<Report>, idParam: Option<Id>): (r: Result<Report>)
    ensures idParam.None? ==> r == Err(BadRequest)
    ensures r.Ok? ==> r.value in reports && Some(r.value.id) == idParam
    ensures (idParam.Some? && exists i | 0 <= i < |reports| :: reports[i].id == idParam.value) <==> r.Ok?
    ensures r.Err? ==> r.code in {BadRequest, NotFound}
  {
    if idParam.None? then Err(BadRequest)
    else
      var k := Find(reports, idParam.value);
      if k.None? then Err(NotFound) else Ok(reports[k.value])
  }

  // ---------------------------------------------------------------------------
  // updateReport

  /** How a value prints in a template string; numbers print through
      `numberText`, JavaScript's number formatting. */
  function Template(v: JsValue, numberText: real -> string): string {
    match v
    case Undefined => "undefined"
    case Null => "null"
    case Bool(b) => if b then "true" else "false"
    case Num(n) => numberText(n)
    case Str(s) => s
    case Obj => "[object Object]"
  }

  /** The store's cast of a value to a string field: `null` stays `null`,
      strings are kept, booleans and numbers print, and an object or array
      is a cast error. */
  function CastText(v: JsValue, numberText: real -> string): (r: Result<Option<string>>)
    requires !v.Undefined?
    ensures r.Err? <==> v.Obj?
    ensures v.Null? ==> r == Ok(None)
    ensures v.Str? ==> r == Ok(Some(v.s))
    ensures r.Ok? && !v.Null? ==> r == Ok(Some(Template(v, numberText)))
  {
    match v
    case Null => Ok(None)
    case Obj => Err(InternalError)
    case _ => Ok(Some(Template(v, numberText)))
  }

  /** A status change recorded in the audit entry's `changedFields`. */
  datatype StatusChange = StatusChange(from: string, to: string)

  /** An audit entry of a report update, with its `changedFields`. */
  datatype ReportAudit = ReportAudit(entry: AuditLog.Entry, statusChange: Option<StatusChange>)

  /** What `updateReport` leaves behind: the stored reports, the audit
      entries written, and the reply. */
  datatype UpdateOutcome = UpdateOutcome(reports: seq<Report>, audits: seq<ReportAudit>, reply: Result<Report>)

  /** The report after applying `status` and `internalNote` and saving it:
      the status is replaced only by a truthy value, the note whenever it is
      defined (so `''` and `null` clear it). The store refuses a status
      outside the enum (no schema guards this route, so any truthy
      non-string status is refused too) and a note it cannot cast. */
  function Edit(before: Report, status: JsValue, note: JsValue, numberText: real -> string): (r: Result<Report>)
    ensures r.Err? ==> r.code == InternalError
    ensures Truthy(status) && !(status.Str? && status.s in Validation.ReportStatuses) ==> r.Err?
    ensures note.Obj? ==> r.Err?
    ensures r.Ok? ==> r.value.(status := before.status, internalNote := before.internalNote) == before
    ensures r.Ok? && Truthy(status) ==> r.value.status == status.s
    ensures r.Ok? && !Truthy(status) ==> r.value.status == before.status
    ensures r.Ok? && note.Undefined? ==> r.value.internalNote == before.internalNote
    ensures r.Ok? && note.Null? ==> r.value.internalNote == None
    ensures r.Ok? && note.Str? ==> r.value.internalNote == Some(note.s)
    ensures (ValidReport(before) && (!Truthy(status) || status.Str?)
             && Validation.UpdateReportOk(map["status" := status, "internalNote" := note])) ==> r.Ok?
    ensures r.Ok? ==> ValidReport(r.value)
  {
    // no number or boolean prints as a status name, and an object does not cast
    if Truthy(status) && !status.Str? then Err(InternalError)
    else
      var newStatus := if Truthy(status) then status.s else before.status;
      var newNote :-
        if note.Undefined? then Ok(before.internalNote) else CastText(note, numberText);
      var after := before.(status := newStatus, internalNote := newNote);
      if !ValidReport(after) then Err(InternalError) else Ok(after)
  }

  /** `updateReport` by admin `adminId`, with the audit entry checked against
      the action set `allowed`. The id is checked (400), the report looked
      up (404), edited and saved (500 on a refused value); then the audit
      entry `UPDATE_REPORT` is written, recording a status change only when
      a status was given and differs from the stored one. When the audit
      entry is refused the reply is a 500 although the report is already
      saved. */
  function UpdateReportWith(reports: seq<Report>, adminId: Id, idParam: Option<Id>, body: Body,
                            numberText: real -> string, allowed: set<string>): (o: UpdateOutcome)
    ensures idParam.None? ==> o == UpdateOutcome(reports, [], Err(BadRequest))
    ensures idParam.Some? && Find(reports, idParam.value).None? ==> o == UpdateOutcome(reports, [], Err(NotFound))
    ensures o.reports == reports || o.reply != Err(NotFound)
    ensures o.reports != reports ==>
      && idParam.Some? && Find(reports, idParam.value).Some?
      && var k := Find(reports, idParam.value).value;
      && Edit(reports[k], Get(body, "status"), Get(body, "internalNote"), numberText).Ok?
      && o.reports == reports[k := Edit(reports[k], Get(body, "status"), Get(body, "internalNote"), numberText).value]
    ensures o.reply.Ok? <==>
      && idParam.Some? && Find(reports, idParam.value).Some?
      && Edit(reports[Find(reports, idParam.value).value], Get(body, "status"), Get(body, "internalNote"), numberText).Ok?
      && "UPDATE_REPORT" in allowed
    ensures o.reply.Ok? ==> o.reply.value == o.reports[Find(reports, idParam.value).value]
    ensures o.reply.Err? ==> o.audits == []
    ensures o.reply.Ok? ==>
      var k := Find(reports, idParam.value).value;
      var status := Get(body, "status");
      && |o.audits| == 1
      && o.audits[0].entry.adminId == adminId
      && o.audits[0].entry.actionType == "UPDATE_REPORT"
      && o.audits[0].entry.targetType == "REPORT"
      && o.audits[0].entry.targetId == reports[k].id
      && (o.audits[0].statusChange.Some? <==> Truthy(status) && status != Str(reports[k].status))
      && (o.audits[0].statusChange.Some? ==> o.audits[0].statusChange.value == StatusChange(reports[k].status, status.s))
  {
    if idParam.None? then UpdateOutcome(reports, [], Err(BadRequest))
    else
      var k := Find(reports, idParam.value);
      if k.None? then UpdateOutcome(reports, [], Err(NotFound))
      else
        var before := reports[k.value];
        var status := Get(body, "status");
        var note := Get(body, "internalNote");
        var edited := Edit(before, status, note, numberText);
        if edited.Err? then UpdateOutcome(reports, [], Err(edited.code))
        else
          var saved := reports[k.value := edited.value];
          var change := if Truthy(status) && status != Str(before.status) then Some(StatusChange(before.status, status.s)) else None;
          var text :=
            if Truthy(note) then Template(note, numberText)
            else "Report status updated from " + before.status + " to " + Template(status, numberText);
          var entry := AuditLog.NewEntry(adminId, "UPDATE_REPORT", Some("REPORT"), before.id, Some(text));
          var logged := AuditLog.Create(entry, allowed);
          if logged.Err? then UpdateOutcome(saved, [], Err(InternalError))
          else UpdateOutcome(saved, [ReportAudit(entry, change)], Ok(edited.value))
  }

  /** `updateReport` as written: the audit entry is checked against the
      schema's action set. */
  function UpdateReport(reports: seq<Report>, adminId: Id, idParam: Option<Id>, body: Body,
                        numberText: real -> string): (o: UpdateOutcome)
    ensures o.reply.Err? && o.audits == []
  {
    AuditLog.UpdateReportNotAllowed(AuditLog.Entry(adminId, "UPDATE_REPORT", "REPORT", 0, ""));
    UpdateReportWith(reports, adminId, idParam, body, numberText, AuditLog.Actions)
  }

  /** `updateReport` with the report-update action added to the schema's set. */
  function UpdateReportCorrected(reports: seq<Report>, adminId: Id, idParam: Option<Id>, body: Body,
                                 numberText: real -> string): (o: UpdateOutcome)
    ensures o.reply.Ok? <==>
      && idParam.Some? && Find(reports, idParam.value).Some?
      && Edit(reports[Find(reports, idParam.value).value], Get(body, "status"), Get(body, "internalNote"), numberText).Ok?
  {
    AuditLog.UpdateReportNotAllowed(AuditLog.Entry(adminId, "UPDATE_REPORT", "REPORT", 0, ""));
    UpdateReportWith(reports, adminId, idParam, body, numberText, AuditLog.ActionsWithReports)
  }

  /** As written, every update that reaches the store answers 500 and
      writes no audit entry, yet the report is saved exactly as the
      corrected handler saves it. */
  lemma UpdateAlwaysFailsAfterSaving(reports: seq<Report>, adminId: Id, id: Id, body: Body, numberText: real -> string)
    requires Find(reports, id).Some?
    requires Edit(reports[Find(reports, id).value], Get(body, "status"), Get(body, "internalNote"), numberText).Ok?
    ensures var o := UpdateReport(reports, adminId, Some(id), body, numberText);
      o.reply == Err(InternalError) && o.audits == []
    ensures UpdateReport(reports, adminId, Some(id), body, numberText).reports
         == UpdateReportCorrected(reports, adminId, Some(id), body, numberText).reports
    ensures UpdateReportCorrected(reports, adminId, Some(id), body, numberText).reply.Ok?
  {
    AuditLog.UpdateReportNotAllowed(AuditLog.Entry(adminId, "UPDATE_REPORT", "REPORT", id, ""));
  }

  /** A concrete instance: closing an open report changes it in the store
      while the admin sees an error. */
  lemma ClosingReportShowsError(numberText: real -> string)
    ensures var r := Report(1, 2, 3, 4, "OTHER", "late", "OPEN", Some(""), 0);
      var o := UpdateReport([r], 9, Some(1), map["status" := Str("ACTIONED")], numberText);
      o.reply == Err(InternalError) && o.reports == [r.(status := "ACTIONED")]
  {
    var r := Report(1, 2, 3, 4, "OTHER", "late", "OPEN", Some(""), 0);
    var body := map["status" := Str("ACTIONED")];
    assert Get(body, "internalNote") == Undefined;
    assert Find([r], 1) == Some(0);
    assert [r][0 := r.(status := "ACTIONED")] == [r.(status := "ACTIONED")];
  }

  /** Behind the update schema (which no route applies) a string status
      never causes a refusal: the edit of a valid report is saved. */
  lemma SchemaBodySaves(before: Report, body: Body, numberText: real -> string)
    requires ValidReport(before)
    requires Validation.UpdateReportOk(body)
    ensures Edit(before, Get(body, "status"), Get(body, "internalNote"), numberText).Ok?
  {
    var status := Get(body, "status");
    var note := Get(body, "internalNote");
    assert Validation.UpdateReportOk(map["status" := status, "internalNote" := note]) by {
      var m := map["status" := status, "internalNote" := note];
      assert Get(m, "status") == status && Get(m, "internalNote") == note;
    }
  }

  /** Repeating an update changes nothing more: the second call saves the
      same reports and records no status change. */
  lemma UpdateIsIdempotent(reports: seq<Report>, adminId: Id, id: Id, body: Body, numberText: real -> string)
    requires DistinctIds(reports)
    requires UpdateReportCorrected(reports, adminId, Some(id), body, numberText).reply.Ok?
    ensures var o1 := UpdateReportCorrected(reports, adminId, Some(id), body, numberText);
      var o2 := UpdateReportCorrected(o1.reports, adminId, Some(id), body, numberText);
      o2.reports == o1.reports && o2.reply == o1.reply && o2.audits[0].statusChange.None?
  {
    var o1 := UpdateReportCorrected(reports, adminId, Some(id), body, numberText);
    var k := Find(reports, id).value;
    var after := o1.reports[k];
    assert after.id == id;
    assert DistinctIds(o1.reports) by {
      forall i, j | 0 <= i < j < |o1.reports|
        ensures o1.reports[i].id != o1.reports[j].id
      {
        assert o1.reports[i].id == reports[i].id;
        assert o1.reports[j].id == reports[j].id;
      }
    }
    FindUnique(o1.reports, id, k);
    var status := Get(body, "status");
    var note := Get(body, "internalNote");
    var again := Edit(after, status, note, numberText);
    assert again.Ok? && again.value == after;
    assert o1.reports[k := after] == o1.reports;
  }

  /** An update touches only the report it names. */
  lemma UpdateTouchesOneReport(reports: seq<Report>, adminId: Id, id: Id, body: Body,
                               numberText: real -> string, allowed: set<string>, i: nat)
    requires DistinctIds(reports)
    requires i < |reports| && reports[i].id != id
    ensures var o := UpdateReportWith(reports, adminId, Some(id), body, numberText, allowed);
      |o.reports| == |reports| && o.reports[i] == reports[i]
  {
  }
}
