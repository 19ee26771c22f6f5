/** How the verification transitions fit together: what one handler leaves
    behind for the next. The handlers are `DoctorController` (profile save,
    verification, re-verification request), `AdminDoctors` (suspend,
    unsuspend) and `DoctorRestrictions` (the suspension gate).
 */
module Lifecycle {

  import opened Wrappers
  import opened Entities
  import opened Profiles
  import opened Effects
  import DoctorController
  import DoctorRestrictions
  import AdminDoctors

  /** No profile records a re-verification request. */
  predicate NoRequestsRecorded(dir: Directory) {
    forall u :: u in dir.profiles ==> dir.profiles[u].reverificationRequestedAt.None?
  }

  /** A re-verification request sets the profile to `PENDING`, so the
      unsuspend gate, which only holds `SUSPENDED` profiles, opens; and the
      request saved the profile, so the unsuspension saves it too. */
  lemma ReverificationOpensUnsuspendGate(dir: Directory, doctor: Caller, admin: Caller, note: Option<string>)
    requires DoctorController.RequestReverification(dir, doctor).Ok?
    ensures var dir' := DoctorController.RequestReverification(dir, doctor).value;
      AdminDoctors.Unsuspend(dir', admin, Some(doctor.id), note).reply.Ok?
  {
    var dir' := DoctorController.RequestReverification(dir, doctor).value;
    assert dir'.profiles[doctor.id].verificationStatus == Pending;
  }

  /** The request succeeds for every stored doctor whose profile is
      `SUSPENDED` or `REJECTED` and passes the schema. */
  lemma SuspendedOrRejectedCanAsk(dir: Directory, doctor: Caller)
    requires doctor.id in dir.users && dir.users[doctor.id].role == Doctor && doctor.id in dir.profiles
    requires dir.profiles[doctor.id].verificationStatus in {Suspended, Rejected}
    requires Valid(dir.profiles[doctor.id])
    ensures DoctorController.RequestReverification(dir, doctor).Ok?
  {
  }

  /** The way back from a suspension: after the admin suspends a doctor
      whose stored profile passes the schema, the doctor's request for
      re-verification succeeds, and then so does the admin's unsuspension,
      which leaves the account active and unstamped. */
  lemma SuspendAskUnsuspend(dir: Directory, admin: Caller, uid: Id, req: AdminDoctors.SuspendRequest, now: int,
                            note: Option<string>)
    requires AdminDoctors.Suspend(dir, admin, Some(uid), req, now).reply.Ok?
    requires uid in dir.profiles && Valid(dir.profiles[uid])
    ensures var d1 := AdminDoctors.Suspend(dir, admin, Some(uid), req, now).dir;
      var r := DoctorController.RequestReverification(d1, Caller(uid, Doctor));
      && r.Ok?
      && var o := AdminDoctors.Unsuspend(r.value, admin, Some(uid), note);
      && o.reply.Ok?
      && o.dir.users[uid].isActive && o.dir.users[uid].suspendedAt.None?
  {
    var d1 := AdminDoctors.Suspend(dir, admin, Some(uid), req, now).dir;
    assert d1.profiles[uid] == dir.profiles[uid].(verificationStatus := Suspended);
    SuspendedOrRejectedCanAsk(d1, Caller(uid, Doctor));
    ReverificationOpensUnsuspendGate(d1, Caller(uid, Doctor), admin, note);
  }

  /** The request also deactivates the account, so the doctor leaves the
      admin's pending list as written, though the list the handler's comment
      describes would show them. */
  lemma ReverificationHidesFromPendingList(dir: Directory, doctor: Caller)
    requires DoctorController.RequestReverification(dir, doctor).Ok?
    ensures var dir' := DoctorController.RequestReverification(dir, doctor).value;
      doctor.id !in DoctorController.PendingDoctors(dir')
      && doctor.id in DoctorController.PendingDoctorsWithRequests(dir')
  {
  }

  /** The request keeps the suspension stamp, so a suspended doctor who has
      asked for re-verification is still refused by the restriction gate. */
  lemma ReverificationKeepsRestriction(dir: Directory, doctor: Caller)
    requires doctor.role == Doctor
    requires DoctorController.RequestReverification(dir, doctor).Ok?
    requires dir.users[doctor.id].suspendedAt.Some?
    ensures var dir' := DoctorController.RequestReverification(dir, doctor).value;
      DoctorRestrictions.Check(dir', doctor) == Err(Forbidden)
  {
  }

  /** No handler ever records a re-verification request: starting from a
      directory with none, each transition leaves none. Profile saves keep
      the field of an existing profile and create new ones without it. */
  lemma SaveRecordsNoRequest(dir: Directory, doctor: Caller, form: ProfileForm, newId: Id)
    requires NoRequestsRecorded(dir)
    ensures var r := DoctorController.SaveProfile(dir, doctor, form, newId);
      r.Ok? ==> NoRequestsRecorded(r.value)
  {
  }

  /** A verification decision leaves the field alone. */
  lemma VerifyRecordsNoRequest(dir: Directory, admin: Caller, uidParam: Option<Id>, status: string, reason: Option<string>)
    requires NoRequestsRecorded(dir)
    ensures NoRequestsRecorded(DoctorController.VerifyDoctor(dir, admin, uidParam, status, reason).dir)
  {
  }

  /** Asking for re-verification does not record the request either. */
  lemma RequestRecordsNoRequest(dir: Directory, doctor: Caller)
    requires NoRequestsRecorded(dir)
    ensures var r := DoctorController.RequestReverification(dir, doctor);
      r.Ok? ==> NoRequestsRecorded(r.value)
  {
  }

  /** Suspension changes the status only. */
  lemma SuspendRecordsNoRequest(dir: Directory, admin: Caller, uid: Id, req: AdminDoctors.SuspendRequest, now: int)
    requires NoRequestsRecorded(dir)
    ensures NoRequestsRecorded(AdminDoctors.Suspend(dir, admin, Some(uid), req, now).dir)
  {
  }

  /** Unsuspension clears the field. */
  lemma UnsuspendRecordsNoRequest(dir: Directory, admin: Caller, uid: Id, note: Option<string>)
    requires NoRequestsRecorded(dir)
    ensures NoRequestsRecorded(AdminDoctors.Unsuspend(dir, admin, Some(uid), note).dir)
  {
  }

  /** Hence, as long as no request is on record, a profile the admin has
      just suspended cannot be unsuspended: the gate holds until the doctor
      asks for re-verification (or the admin changes the status). */
  lemma SuspensionIsSticky(dir: Directory, admin: Caller, uid: Id, req: AdminDoctors.SuspendRequest, now: int,
                           note: Option<string>)
    requires NoRequestsRecorded(dir)
    requires uid in dir.profiles
    requires AdminDoctors.Suspend(dir, admin, Some(uid), req, now).reply.Ok?
    ensures var dir' := AdminDoctors.Suspend(dir, admin, Some(uid), req, now).dir;
      AdminDoctors.Unsuspend(dir', admin, Some(uid), note).reply == Err(Forbidden)
  {
    var dir' := AdminDoctors.Suspend(dir, admin, Some(uid), req, now).dir;
    assert dir'.profiles[uid].verificationStatus == Suspended;
    assert dir'.users[uid].role == Doctor;
  }

  /** A suspended doctor is off the public list, and so is one who has just
      resubmitted their profile. */
  lemma SuspensionAndResubmissionHide(dir: Directory, admin: Caller, uid: Id, req: AdminDoctors.SuspendRequest,
                                      now: int, doctor: Caller, form: ProfileForm, newId: Id)
    ensures var o := AdminDoctors.Suspend(dir, admin, Some(uid), req, now);
      o.reply.Ok? ==> !DoctorController.Public(o.dir, uid)
    ensures var r := DoctorController.SaveProfile(dir, doctor, form, newId);
      r.Ok? ==> !DoctorController.Public(r.value, doctor.id)
  {
  }

  /** Verification restores everything suspension took away: after a
      suspension and a `VERIFIED` decision the account is active, unstamped
      and passes the restriction gate. */
  lemma VerificationUndoesSuspension(dir: Directory, admin: Caller, uid: Id, req: AdminDoctors.SuspendRequest,
                                     now: int, reason: Option<string>)
    requires AdminDoctors.Suspend(dir, admin, Some(uid), req, now).reply.Ok?
    ensures var d1 := AdminDoctors.Suspend(dir, admin, Some(uid), req, now).dir;
      var o := DoctorController.VerifyDoctor(d1, admin, Some(uid), "VERIFIED", reason);
      o.reply.Ok? ==>
        o.dir.users[uid].isActive && DoctorRestrictions.Check(o.dir, Caller(uid, Doctor)).Ok?
  {
  }

  /** The `VERIFIED` decision after a suspension does succeed when the
      doctor's stored profile passes the schema. */
  lemma VerificationAfterSuspensionSaves(dir: Directory, admin: Caller, uid: Id, req: AdminDoctors.SuspendRequest,
                                         now: int, reason: Option<string>)
    requires AdminDoctors.Suspend(dir, admin, Some(uid), req, now).reply.Ok?
    requires uid in dir.profiles && Valid(dir.profiles[uid])
    ensures var d1 := AdminDoctors.Suspend(dir, admin, Some(uid), req, now).dir;
      DoctorController.VerifyDoctor(d1, admin, Some(uid), "VERIFIED", reason).reply.Ok?
  {
    var d1 := AdminDoctors.Suspend(dir, admin, Some(uid), req, now).dir;
    assert d1.profiles[uid] == dir.profiles[uid].(verificationStatus := Suspended);
    DoctorController.VerifyingValidProfileSaves(d1, admin, uid, reason);
  }
}
