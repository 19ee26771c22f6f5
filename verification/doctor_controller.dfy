/** The doctor handlers: a doctor saving their profile, the public doctor
    list and lookup, the admin's pending list and verification decision, and
    a doctor's request for re-verification.
 */
module DoctorController {

  import opened Wrappers
  import opened Text
  import opened Entities
  import opened Profiles
  import opened Effects
  import Js
  import Notify
  import AuditLog

  // ---------------------------------------------------------------------------
  // Profile create / update

  /** The stored profile after a doctor resubmits `form` over `p`: every
      submitted field is replaced (trimmed where the schema trims), the
      document URL only when a non-empty one is sent, and verification starts
      over. */
  function Resubmit(p: DoctorProfile, form: ProfileForm): (q: DoctorProfile)
    ensures q.verificationStatus == Pending
    ensures q.specialization == Trim(form.specialization) && q.licenseNo == Trim(form.licenseNo)
    ensures q.bio == form.bio && q.fee == form.fee && q.experienceYears == form.experienceYears
    ensures form.docUploadUrl != "" ==> q.docUploadUrl == form.docUploadUrl
    ensures form.docUploadUrl == "" ==> q.docUploadUrl == p.docUploadUrl
    ensures q.id == p.id && q.rejectionReason == p.rejectionReason
    ensures q.avgRating == p.avgRating && q.totalReviews == p.totalReviews
    ensures q.reverificationRequestedAt == p.reverificationRequestedAt
  {
    p.(specialization := Trim(form.specialization),
       experienceYears := form.experienceYears,
       fee := form.fee,
       bio := form.bio,
       licenseNo := Trim(form.licenseNo),
       docUploadUrl := if form.docUploadUrl != "" then form.docUploadUrl else p.docUploadUrl,
       verificationStatus := Pending)
  }

  /** The profile a doctor's submission asks to store: the resubmitted
      existing profile, or a new one with id `newId`. */
  function Submitted(dir: Directory, u: Id, form: ProfileForm, newId: Id): DoctorProfile {
    if u in dir.profiles then Resubmit(dir.profiles[u], form) else NewProfile(form, newId)
  }

  /** `createOrUpdateProfile`: only a caller with role `DOCTOR` may save; the
      caller's existing profile is resubmitted, or a new one (with id
      `newId`) created. The save succeeds exactly when the schema accepts
      the submitted profile, and a profile it refuses is a server error.
      Nothing but the caller's own profile changes. */
  function SaveProfile(dir: Directory, caller: Caller, form: ProfileForm, newId: Id): (r: Result<Directory>)
    ensures caller.role != Doctor ==> r == Err(Forbidden)
    ensures r.Ok? <==> caller.role == Doctor && Valid(Submitted(dir, caller.id, form, newId))
    ensures r.Err? && caller.role == Doctor ==> r.code == InternalError
    ensures r.Ok? ==> caller.id in r.value.profiles && Valid(r.value.profiles[caller.id])
    ensures r.Ok? ==> r.value.profiles[caller.id].verificationStatus == Pending
    ensures r.Ok? ==> r.value.users == dir.users
    ensures r.Ok? ==> r.value.profiles == dir.profiles[caller.id := r.value.profiles[caller.id]]
    ensures r.Ok? && caller.id in dir.profiles ==> r.value.profiles[caller.id] == Resubmit(dir.profiles[caller.id], form)
    ensures r.Ok? && caller.id !in dir.profiles ==> r.value.profiles[caller.id] == NewProfile(form, newId)
  {
    if caller.role != Doctor then Err(Forbidden)
    else
      var saved :- Save(Submitted(dir, caller.id, form, newId));
      Ok(dir.(profiles := dir.profiles[caller.id := saved]))
  }

  /** What the schema asks of the submitted fields, after its trims. */
  predicate FormValid(form: ProfileForm) {
    && Trim(form.specialization) != ""
    && form.experienceYears >= 0.0
    && form.fee >= 0.0
    && form.bio != ""
    && |form.bio| <= 1000
    && Trim(form.licenseNo) != ""
  }

  /** Whether a save succeeds is decided by the form, and for an existing
      profile also by the rating already stored on it, which a resubmission
      keeps: a doctor sending a valid form always saves a new profile, and
      resubmits over a stored profile whose rating is in range. */
  lemma SaveIffFormValid(dir: Directory, caller: Caller, form: ProfileForm, newId: Id)
    ensures SaveProfile(dir, caller, form, newId).Ok? <==>
      && caller.role == Doctor
      && FormValid(form)
      && (caller.id in dir.profiles ==>
            var rating := dir.profiles[caller.id].avgRating;
            rating.Some? ==> 0.0 <= rating.value <= 5.0)
  {
  }

  // ---------------------------------------------------------------------------
  // Public list and lookup

  /** The base of the public list: a `VERIFIED` profile whose user exists,
      is active and has role `DOCTOR`. */
  predicate Public(dir: Directory, u: Id) {
    && u in dir.profiles
    && dir.profiles[u].verificationStatus == Verified
    && u in dir.users
    && dir.users[u].isActive
    && dir.users[u].role == Doctor
  }

  /** The query of the public list. `minFee`/`maxFee` are present when a
      non-empty number was sent; `availableIds` is present when `availableOn`
      was sent and holds the doctors with a free slot on that date. */
  datatype DoctorQuery = DoctorQuery(
    specialization: Option<string>,
    minFee: Option<real>,
    maxFee: Option<real>,
    q: Option<string>,
    availableIds: Option<set<Id>>)

  /** The fee bounds, both inclusive. */
  predicate FeeWithin(fee: real, minFee: Option<real>, maxFee: Option<real>) {
    (minFee.None? || fee >= minFee.value) && (maxFee.None? || fee <= maxFee.value)
  }

  /** The specialization filter: applied only when a non-empty pattern was sent. */
  predicate SpecializationOk(p: DoctorProfile, query: DoctorQuery, matches: (string, string) -> bool) {
    Js.Filled(query.specialization) ==> matches(query.specialization.value, p.specialization)
  }

  /** The free-text filter: the pattern must match the specialization or the bio. */
  predicate TextOk(p: DoctorProfile, query: DoctorQuery, matches: (string, string) -> bool) {
    Js.Filled(query.q) ==> matches(query.q.value, p.specialization) || matches(query.q.value, p.bio)
  }

  /** A pattern the handler compiles: none is compiled when the parameter
      is missing or empty, and `validPattern` says which strings
      `new RegExp` accepts. */
  predicate Compiles(pattern: Option<string>, validPattern: string -> bool) {
    Js.Filled(pattern) ==> validPattern(pattern.value)
  }

  /** The base set of the public list. */
  function PublicBase(dir: Directory): (r: set<Id>)
    ensures forall u :: u in r <==> Public(dir, u)
  {
    set u | u in dir.profiles && Public(dir, u)
  }

  /** Narrowing by specialization, as the handler adds it to the query. A
      pattern that does not compile throws, whatever the set. */
  function BySpecialization(dir: Directory, s: set<Id>, query: DoctorQuery, validPattern: string -> bool,
                            matches: (string, string) -> bool): (r: Result<set<Id>>)
    requires forall u :: u in s ==> u in dir.profiles
    ensures r.Err? <==> !Compiles(query.specialization, validPattern)
    ensures r.Err? ==> r.code == InternalError
    ensures r.Ok? ==> forall u :: u in r.value <==> u in s && SpecializationOk(dir.profiles[u], query, matches)
  {
    if Js.Filled(query.specialization) then
      if !validPattern(query.specialization.value) then Err(InternalError)
      else Ok(set u | u in s && matches(query.specialization.value, dir.profiles[u].specialization))
    else Ok(s)
  }

  /** Narrowing by fee, done on the fetched profiles: a doctor below the
      minimum or above the maximum is dropped, so both bounds are inclusive. */
  function ByFee(dir: Directory, s: set<Id>, query: DoctorQuery): (r: set<Id>)
    requires forall u :: u in s ==> u in dir.profiles
    ensures forall u :: u in r <==> u in s && FeeWithin(dir.profiles[u].fee, query.minFee, query.maxFee)
  {
    if query.minFee.Some? || query.maxFee.Some? then
      set u | u in s
        && !(query.minFee.Some? && dir.profiles[u].fee < query.minFee.value)
        && !(query.maxFee.Some? && dir.profiles[u].fee > query.maxFee.value)
    else s
  }

  /** Narrowing by the free-text query. A pattern that does not compile
      throws, whatever the set. */
  function ByText(dir: Directory, s: set<Id>, query: DoctorQuery, validPattern: string -> bool,
                  matches: (string, string) -> bool): (r: Result<set<Id>>)
    requires forall u :: u in s ==> u in dir.profiles
    ensures r.Err? <==> !Compiles(query.q, validPattern)
    ensures r.Err? ==> r.code == InternalError
    ensures r.Ok? ==> forall u :: u in r.value <==> u in s && TextOk(dir.profiles[u], query, matches)
  {
    if Js.Filled(query.q) then
      if !validPattern(query.q.value) then Err(InternalError)
      else Ok(set u | u in s && (matches(query.q.value, dir.profiles[u].specialization) || matches(query.q.value, dir.profiles[u].bio)))
    else Ok(s)
  }

  /** Narrowing to the doctors free on the requested date. */
  function ByAvailability(s: set<Id>, query: DoctorQuery): (r: set<Id>)
    ensures forall u :: u in r <==> u in s && (query.availableIds.Some? ==> u in query.availableIds.value)
  {
    if query.availableIds.Some? then set u | u in s && u in query.availableIds.value else s
  }

  /** `getVerifiedDoctors`: the base set, narrowed by each filter in turn.
      `matches(pattern, text)` stands for a case-insensitive regular-expression
      test and `validPattern` for `new RegExp` accepting the pattern. A
      pattern that does not compile makes the handler answer 500; otherwise
      the result is within the base set, and a doctor is kept exactly when
      every requested filter accepts them. */
  function PublicDoctors(dir: Directory, query: DoctorQuery, validPattern: string -> bool,
                         matches: (string, string) -> bool): (r: Result<set<Id>>)
    ensures r.Err? <==> !Compiles(query.specialization, validPattern) || !Compiles(query.q, validPattern)
    ensures r.Err? ==> r.code == InternalError
    ensures r.Ok? ==> forall u :: u in r.value ==> Public(dir, u) && FeeWithin(dir.profiles[u].fee, query.minFee, query.maxFee)
    ensures r.Ok? ==> forall u :: u in r.value <==>
      && Public(dir, u)
      && SpecializationOk(dir.profiles[u], query, matches)
      && FeeWithin(dir.profiles[u].fee, query.minFee, query.maxFee)
      && TextOk(dir.profiles[u], query, matches)
      && (query.availableIds.Some? ==> u in query.availableIds.value)
  {
    var base := PublicBase(dir);
    var s1 :- BySpecialization(dir, base, query, validPattern, matches);
    var s2 := ByFee(dir, s1, query);
    var s3 :- ByText(dir, s2, query, validPattern, matches);
    Ok(ByAvailability(s3, query))
  }

  /** `getDoctorById` (public) for the path parameter `idParam`, `None` when
      it is not a well-formed id (the lookup throws, 500). Found only when
      the profile is `VERIFIED` and its user exists and is active; the
      user's role is not consulted. */
  function PublicDoctor(dir: Directory, idParam: Option<Id>): (r: Result<DoctorProfile>)
    ensures idParam.None? ==> r == Err(InternalError)
    ensures r.Ok? <==>
      && idParam.Some?
      && var id := idParam.value;
      id in dir.profiles && dir.profiles[id].verificationStatus == Verified && id in dir.users && dir.users[id].isActive
    ensures r.Ok? ==> r.value == dir.profiles[idParam.value]
    ensures idParam.Some? && r.Err? ==> r.code == NotFound
  {
    match idParam
    case None => Err(InternalError)
    case Some(id) =>
      if id in dir.profiles && dir.profiles[id].verificationStatus == Verified
         && id in dir.users && dir.users[id].isActive
      then Ok(dir.profiles[id])
      else Err(NotFound)
  }

  /** The public list and the lookup by id agree: a listed doctor is found
      by id, and a doctor found by id is listed exactly when the account's
      role is `DOCTOR`. */
  lemma ListedIffFound(dir: Directory, id: Id)
    ensures id in PublicBase(dir) <==> PublicDoctor(dir, Some(id)).Ok? && dir.users[id].role == Doctor
    ensures id in PublicBase(dir) ==> PublicDoctor(dir, Some(id)) == Ok(dir.profiles[id])
  {
  }

  // ---------------------------------------------------------------------------
  // Admin: pending list and verification

  /** `getPendingDoctors` as written: `PENDING` profiles whose user is an
      active `DOCTOR`. Inactive doctors are left out. */
  function PendingDoctors(dir: Directory): (r: set<Id>)
    ensures forall u :: u in r <==>
      u in dir.profiles && dir.profiles[u].verificationStatus == Pending
      && u in dir.users && dir.users[u].role == Doctor && dir.users[u].isActive
  {
    set u | u in dir.profiles && dir.profiles[u].verificationStatus == Pending
      && u in dir.users && dir.users[u].role == Doctor && dir.users[u].isActive
  }

  /** The pending list the handler's comment describes, with re-verification
      requests included: every `PENDING` profile of a `DOCTOR` user, active or not. */
  function PendingDoctorsWithRequests(dir: Directory): (r: set<Id>)
    ensures PendingDoctors(dir) <= r
    ensures forall u :: u in r <==>
      u in dir.profiles && dir.profiles[u].verificationStatus == Pending
      && u in dir.users && dir.users[u].role == Doctor
  {
    set u | u in dir.profiles && dir.profiles[u].verificationStatus == Pending
      && u in dir.users && dir.users[u].role == Doctor
  }

  /** The note `verifyDoctor` writes to the audit log. */
  function VerifyNote(verified: bool, reason: Option<string>): string {
    if verified then "Doctor verified"
    else "Doctor rejected: " + (if Js.Filled(reason) then reason.value else "No reason provided")
  }

  /** `verifyDoctor`: the admin `admin` sets the profile of `uid` to `status`
      whatever its current status. A status outside the enum fails the save.
      A rejection reason is stored only for `REJECTED` with a non-empty
      reason; `VERIFIED` also reactivates the user and clears `suspendedAt`.
      The doctor is notified, and the decision logged as `VERIFY_DOCTOR` for
      `VERIFIED` and `REJECT_DOCTOR` for every other status. When the
      profile's user is missing, the confirmation e-mail cannot be addressed
      and the reply is a server error after all the writes. A path
      parameter that is not a well-formed id (`None`) makes the lookup
      throw: a 500 before any write. */
  function VerifyDoctor(dir: Directory, admin: Caller, uidParam: Option<Id>, status: string, reason: Option<string>)
    : (o: Outcome<DoctorProfile>)
    ensures uidParam.None? ==> Unchanged(o, dir) && o.reply == Err(InternalError)
    ensures o.reply.Ok? ==> uidParam.Some?
    ensures uidParam.Some? ==> VerifyDoctorId(dir, admin, uidParam.value, status, reason) == o
  {
    match uidParam
    case None => Refuse(dir, InternalError)
    case Some(uid) => VerifyDoctorId(dir, admin, uid, status, reason)
  }

  /** The profile `p` after the decision `v`: the status is set, and a
      non-empty reason is stored only with a rejection. */
  function Decided(p: DoctorProfile, v: VerificationStatus, reason: Option<string>): DoctorProfile {
    p.(verificationStatus := v,
       rejectionReason := if v == Rejected && Js.Filled(reason) then reason.value else p.rejectionReason)
  }

  /** The decision on `uid` is saved: the profile exists, the status is in
      the enum and the decided profile passes the schema. */
  predicate DecisionSaves(dir: Directory, uid: Id, status: string, reason: Option<string>) {
    && uid in dir.profiles
    && ParseStatus(status).Some?
    && Valid(Decided(dir.profiles[uid], ParseStatus(status).value, reason))
  }

  /** `verifyDoctor` once the path parameter is a well-formed id `uid`. */
  function VerifyDoctorId(dir: Directory, admin: Caller, uid: Id, status: string, reason: Option<string>): (o: Outcome<DoctorProfile>)
    ensures uid !in dir.profiles ==> Unchanged(o, dir) && o.reply == Err(NotFound)
    ensures uid in dir.profiles && ParseStatus(status).None? ==> Unchanged(o, dir) && o.reply == Err(InternalError)
    ensures (uid in dir.profiles && ParseStatus(status).Some? && !DecisionSaves(dir, uid, status, reason)) ==>
      Unchanged(o, dir) && o.reply == Err(InternalError)
    ensures o.reply.Ok? <==> DecisionSaves(dir, uid, status, reason) && uid in dir.users
    ensures DecisionSaves(dir, uid, status, reason) ==>
      && o.dir.profiles == dir.profiles[uid := Decided(dir.profiles[uid], ParseStatus(status).value, reason)]
      && o.notices == Notify.VerificationDrafts(if uid in dir.users then Some(uid) else None,
                                                dir.profiles[uid].id, status, reason)
      && |o.logs| == 1 && o.logs[0].targetId == uid && o.logs[0].adminId == admin.id
    ensures DecisionSaves(dir, uid, status, reason) && uid !in dir.users ==>
      o.dir.users == dir.users && o.reply == Err(InternalError)
    ensures o.reply.Ok? ==> uid in dir.users && uid in o.dir.profiles
    ensures o.reply.Ok? ==> o.dir.profiles[uid].verificationStatus.Name() == status
    ensures o.reply.Ok? ==> o.dir.profiles == dir.profiles[uid := o.dir.profiles[uid]]
    ensures o.reply.Ok? ==>
      o.dir.profiles[uid].rejectionReason ==
        (if status == "REJECTED" && Js.Filled(reason) then reason.value else dir.profiles[uid].rejectionReason)
    ensures o.reply.Ok? && status == "VERIFIED" ==>
      o.dir.users == dir.users[uid := dir.users[uid].(isActive := true, suspendedAt := None)]
    ensures o.reply.Ok? && status != "VERIFIED" ==> o.dir.users == dir.users
    ensures o.reply.Ok? ==> |o.logs| == 1 && o.logs[0].targetId == uid && o.logs[0].adminId == admin.id
    ensures o.reply.Ok? ==> (o.logs[0].actionType == "VERIFY_DOCTOR" <==> status == "VERIFIED")
    ensures o.reply.Ok? && status != "VERIFIED" ==> o.logs[0].actionType == "REJECT_DOCTOR"
  {
    if uid !in dir.profiles then Refuse(dir, NotFound)
    else
      match ParseStatus(status)
      case None => Refuse(dir, InternalError)
      case Some(v) =>
        var p := dir.profiles[uid];
        match Save(Decided(p, v, reason))
        case Err(code) => Refuse(dir, code)
        case Ok(saved) =>
          var users :=
            if v == Verified && uid in dir.users
            then dir.users[uid := dir.users[uid].(isActive := true, suspendedAt := None)]
            else dir.users;
          var dir' := Directory(users, dir.profiles[uid := saved]);
          var recipient := if uid in dir.users then Some(uid) else None;
          var notices := Notify.VerificationDrafts(recipient, p.id, status, reason);
          var action := if v == Verified then "VERIFY_DOCTOR" else "REJECT_DOCTOR";
          var entry := AuditLog.NewEntry(admin.id, action, Some("DOCTOR"), uid, Some(VerifyNote(v == Verified, reason)));
          var reply := if uid in dir.users then Ok(saved) else Err(InternalError);
          Outcome(dir', notices, [entry], reply)
  }

  /** The admin can always verify a stored doctor whose profile passes the
      schema, whatever its current status. */
  lemma VerifyingValidProfileSaves(dir: Directory, admin: Caller, uid: Id, reason: Option<string>)
    requires uid in dir.profiles && uid in dir.users && Valid(dir.profiles[uid])
    ensures VerifyDoctor(dir, admin, Some(uid), "VERIFIED", reason).reply.Ok?
  {
    assert ParseStatus("VERIFIED") == Some(Verified);
    assert Decided(dir.profiles[uid], Verified, reason) == dir.profiles[uid].(verificationStatus := Verified);
  }

  // ---------------------------------------------------------------------------
  // Doctor: request re-verification

  /** `requestReverification`: the caller must be a stored `DOCTOR` with a
      profile that is `SUSPENDED` or `REJECTED`. The profile goes back to
      `PENDING` (a profile the schema refuses is a server error, before any
      write) and the account is deactivated; nothing else changes — in
      particular `suspendedAt` and `reverificationRequestedAt` keep their values. */
  function RequestReverification(dir: Directory, caller: Caller): (r: Result<Directory>)
    ensures caller.id !in dir.users || dir.users[caller.id].role != Doctor ==> r == Err(NotFound)
    ensures caller.id in dir.users && dir.users[caller.id].role == Doctor && caller.id !in dir.profiles ==> r == Err(NotFound)
    ensures (caller.id in dir.users && dir.users[caller.id].role == Doctor && caller.id in dir.profiles
             && dir.profiles[caller.id].verificationStatus != Suspended
             && dir.profiles[caller.id].verificationStatus != Rejected) ==> r == Err(BadRequest)
    ensures r.Ok? <==>
      && caller.id in dir.users && dir.users[caller.id].role == Doctor && caller.id in dir.profiles
      && dir.profiles[caller.id].verificationStatus in {Suspended, Rejected}
      && Valid(dir.profiles[caller.id].(verificationStatus := Pending))
    ensures (caller.id in dir.users && dir.users[caller.id].role == Doctor && caller.id in dir.profiles
             && dir.profiles[caller.id].verificationStatus in {Suspended, Rejected}
             && !Valid(dir.profiles[caller.id].(verificationStatus := Pending))) ==> r == Err(InternalError)
    ensures r.Ok? ==> caller.id in dir.profiles && caller.id in dir.users
    ensures r.Ok? ==> dir.profiles[caller.id].verificationStatus in {Suspended, Rejected}
    ensures r.Ok? ==> r.value.profiles == dir.profiles[caller.id := dir.profiles[caller.id].(verificationStatus := Pending)]
    ensures r.Ok? ==> r.value.users == dir.users[caller.id := dir.users[caller.id].(isActive := false)]
  {
    var u := caller.id;
    if u !in dir.users || dir.users[u].role != Doctor then Err(NotFound)
    else if u !in dir.profiles then Err(NotFound)
    else
      var p := dir.profiles[u];
      if p.verificationStatus != Suspended && p.verificationStatus != Rejected then Err(BadRequest)
      else
        var saved :- Save(p.(verificationStatus := Pending));
        Ok(Directory(dir.users[u := dir.users[u].(isActive := false)], dir.profiles[u := saved]))
  }
}
