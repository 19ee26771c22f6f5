/** The doctor profile record, its schema rules, and the doctor directory
    (user accounts together with the profiles that belong to them).
 */
module Profiles {

  import opened Wrappers
  import opened Text
  import opened Entities

  /** Where a profile stands in the admin's verification process. */
  datatype VerificationStatus = Pending | Verified | Rejected | Suspended {

    /** The status as stored. */
    function Name(): string {
      match this
      case Pending => "PENDING"
      case Verified => "VERIFIED"
      case Rejected => "REJECTED"
      case Suspended => "SUSPENDED"
    }
  }

  /** The status named by `s`; `None` for any string outside the enum, which
      the schema refuses to save. */
  function ParseStatus(s: string): (r: Option<VerificationStatus>)
    ensures r.Some? ==> r.value.Name() == s
    ensures forall v: VerificationStatus :: v.Name() == s ==> r == Some(v)
  {
    if s == "PENDING" then Some(Pending)
    else if s == "VERIFIED" then Some(Verified)
    else if s == "REJECTED" then Some(Rejected)
    else if s == "SUSPENDED" then Some(Suspended)
    else None
  }

  /** A doctor's profile. Times are milliseconds; `avgRating` and
      `totalReviews` are `None` once the rating aggregate has unset them. */
  datatype DoctorProfile = DoctorProfile(
    id: Id,
    specialization: string,
    experienceYears: real,
    fee: real,
    bio: string,
    licenseNo: string,
    docUploadUrl: string,
    verificationStatus: VerificationStatus,
    rejectionReason: string,
    avgRating: Option<real>,
    totalReviews: Option<nat>,
    reverificationRequestedAt: Option<int>)

  /** What the profile schema's validators demand before a save succeeds:
      the required strings are non-empty, the numbers are not negative, the
      bio is at most 1000 characters, and a stored rating is within [0, 5]. */
  predicate Valid(p: DoctorProfile) {
    && p.specialization != ""
    && p.experienceYears >= 0.0
    && p.fee >= 0.0
    && p.bio != ""
    && |p.bio| <= 1000
    && p.licenseNo != ""
    && (p.avgRating.Some? ==> 0.0 <= p.avgRating.value <= 5.0)
  }

  /** The profile fields a doctor submits. */
  datatype ProfileForm = ProfileForm(
    specialization: string,
    experienceYears: real,
    fee: real,
    bio: string,
    licenseNo: string,
    docUploadUrl: string)

  /** A freshly created profile: the schema trims `specialization` and
      `licenseNo` and fills in the defaults. */
  function NewProfile(form: ProfileForm, id: Id): (p: DoctorProfile)
    ensures p.id == id && p.verificationStatus == Pending
    ensures p.specialization == Trim(form.specialization) && p.licenseNo == Trim(form.licenseNo)
    ensures p.bio == form.bio && p.fee == form.fee && p.experienceYears == form.experienceYears
    ensures p.docUploadUrl == form.docUploadUrl
    ensures p.rejectionReason == "" && p.avgRating == None
    ensures p.totalReviews == Some(0) && p.reverificationRequestedAt == None
  {
    DoctorProfile(
      id, Trim(form.specialization), form.experienceYears, form.fee, form.bio,
      Trim(form.licenseNo), form.docUploadUrl, Pending, "", None, Some(0), None)
  }

  /** `profile.save()`: the profile when it passes validation, a server
      error otherwise. */
  function Save(p: DoctorProfile): (r: Result<DoctorProfile>)
    ensures r.Ok? <==> Valid(p)
    ensures r.Ok? ==> r.value == p
    ensures r.Err? ==> r.code == InternalError
  {
    if Valid(p) then Ok(p) else Err(InternalError)
  }

  /** The accounts and the profiles, each profile keyed by its owner's id
      (the schema makes `userId` unique, so a user has at most one). */
  datatype Directory = Directory(users: map<Id, User>, profiles: map<Id, DoctorProfile>)
}
