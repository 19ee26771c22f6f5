/** `checkDoctorRestrictions`, the middleware in front of a doctor's write
    routes (saving the profile, managing slots, writing prescriptions).
 */
module DoctorRestrictions {

  import opened Wrappers
  import opened Entities
  import opened Profiles
  import DoctorController

  /** Whether the request may go on. Callers that are not doctors always
      pass; a doctor with no stored account is a 404; a doctor whose
      `suspendedAt` is set is a 403. Nothing else about the account — its
      verification status, its `isActive` flag — is consulted. */
  function Check(dir: Directory, caller: Caller): (r: Result<()>)
    ensures caller.role != Doctor ==> r.Ok?
    ensures caller.role == Doctor && caller.id !in dir.users ==> r == Err(NotFound)
    ensures r == Err(Forbidden) <==>
      caller.role == Doctor && caller.id in dir.users && dir.users[caller.id].suspendedAt.Some?
    ensures r.Ok? <==>
      caller.role != Doctor || (caller.id in dir.users && dir.users[caller.id].suspendedAt.None?)
  {
    if caller.role != Doctor then Ok(())
    else if caller.id !in dir.users then Err(NotFound)
    else if dir.users[caller.id].suspendedAt.Some? then Err(Forbidden)
    else Ok(())
  }

  /** The profile route: the restriction check, then `createOrUpdateProfile`. */
  function SaveProfileRoute(dir: Directory, caller: Caller, form: ProfileForm, newId: Id): (r: Result<Directory>)
    ensures caller.role == Doctor && caller.id in dir.users && dir.users[caller.id].suspendedAt.Some? ==>
      r == Err(Forbidden)
    ensures r.Ok? ==> caller.id in dir.users && dir.users[caller.id].suspendedAt.None?
    ensures r.Ok? ==> caller.id in r.value.profiles && r.value.profiles[caller.id].verificationStatus == Pending
  {
    var _ :- Check(dir, caller);
    DoctorController.SaveProfile(dir, caller, form, newId)
  }

  /** Only the suspension stamp matters: an inactive, rejected doctor with
      no stamp passes. */
  lemma OnlyTheStampCounts(dir: Directory, caller: Caller)
    requires caller.role == Doctor && caller.id in dir.users && caller.id in dir.profiles
    requires dir.users[caller.id].suspendedAt.None? && !dir.users[caller.id].isActive
    requires dir.profiles[caller.id].verificationStatus == Rejected
    ensures Check(dir, caller).Ok?
  {
  }
}
