/** The admin's actions on a doctor account: suspend, unsuspend, and the
    field partitioning of the profile editor.

    A path parameter that is not a well-formed ObjectId is `None`.
 */
module AdminDoctors {

  import opened Wrappers
  import opened Text
  import opened Js
  import opened Entities
  import opened Profiles
  import opened Effects
  import NotificationModel
  import AuditLog
  import Validation

  // ---------------------------------------------------------------------------
  // suspendDoctor

  /** The suspend request after the schema: a string reason and an optional note. */
  datatype SuspendRequest = SuspendRequest(reason: string, note: Option<string>)

  /** The audit note of a suspension: the reason, followed by ` - note` when
      a non-empty note is given. */
  function SuspendNote(req: SuspendRequest): (note: string)
    ensures !Filled(req.note) ==> note == req.reason
    ensures Filled(req.note) ==> note == req.reason + " - " + req.note.value
  {
    req.reason + (if Filled(req.note) then " - " + req.note.value else "")
  }

  /** The notification a suspended doctor receives. */
  function SuspendedNotice(uid: Id): NotificationModel.Draft {
    NotificationModel.Draft(
      Some(uid), Some(NotificationModel.ToDoctor), NotificationModel.Verification, "Account Suspended",
      "Your account has been suspended. Please contact support/admin.",
      Some(map["action" := NotificationModel.MStr("SUSPENDED")]))
  }

  /** `suspendDoctor` at time `now`. A malformed id or a blank reason is a
      400 and a missing or non-doctor user a 404, with nothing written. On
      success the user is deactivated and stamped as suspended, the profile
      (when there is one) becomes `SUSPENDED` with every other field kept,
      the doctor is notified and the action logged with the reason. */
  function Suspend(dir: Directory, admin: Caller, idParam: Option<Id>, req: SuspendRequest, now: int): (o: Outcome<User>)
    ensures idParam.None? ==> Unchanged(o, dir) && o.reply == Err(BadRequest)
    ensures idParam.Some? && IsBlank(req.reason) ==> Unchanged(o, dir) && o.reply == Err(BadRequest)
    ensures idParam.Some? && !IsBlank(req.reason)
            && (idParam.value !in dir.users || dir.users[idParam.value].role != Doctor) ==>
      Unchanged(o, dir) && o.reply == Err(NotFound)
    ensures o.reply.Err? ==> Unchanged(o, dir)
    ensures o.reply.Ok? ==> idParam.Some? && idParam.value in dir.users && !IsBlank(req.reason)
    ensures o.reply.Ok? ==>
      var uid := idParam.value;
      && o.reply.value == dir.users[uid].(isActive := false, suspendedAt := Some(now))
      && o.dir.users == dir.users[uid := o.reply.value]
    ensures o.reply.Ok? && idParam.value in dir.profiles ==>
      o.dir.profiles == dir.profiles[idParam.value := dir.profiles[idParam.value].(verificationStatus := Suspended)]
    ensures o.reply.Ok? && idParam.value !in dir.profiles ==> o.dir.profiles == dir.profiles
    ensures o.reply.Ok? ==> |o.notices| == 1 && o.notices[0].recipientUserId == idParam
    ensures o.reply.Ok? ==>
      o.logs == [AuditLog.Entry(admin.id, "SUSPEND_DOCTOR", "DOCTOR", idParam.value, SuspendNote(req))]
  {
    if idParam.None? then Refuse(dir, BadRequest)
    else if req.reason == "" || IsBlank(req.reason) then Refuse(dir, BadRequest)
    else
      var uid := idParam.value;
      if uid !in dir.users || dir.users[uid].role != Doctor then Refuse(dir, NotFound)
      else
        var user := dir.users[uid].(isActive := false, suspendedAt := Some(now));
        var profiles :=
          if uid in dir.profiles then dir.profiles[uid := dir.profiles[uid].(verificationStatus := Suspended)]
          else dir.profiles;
        var entry := AuditLog.NewEntry(admin.id, "SUSPEND_DOCTOR", Some("DOCTOR"), uid, Some(SuspendNote(req)));
        Outcome(Directory(dir.users[uid := user], profiles), [SuspendedNotice(uid)], [entry], Ok(user))
  }

  /** The suspend route: the schema runs first and the handler sees only
      bodies it accepts. */
  function SuspendRoute(dir: Directory, admin: Caller, idParam: Option<Id>, body: Body, now: int): (o: Outcome<User>)
    ensures !Validation.SuspendOk(body) ==> Unchanged(o, dir) && o.reply == Err(BadRequest)
    ensures o.reply.Ok? ==> Validation.SuspendOk(body) && !IsBlank(body["reason"].s)
  {
    if !Validation.SuspendOk(body) then Refuse(dir, BadRequest)
    else
      var note := if Get(body, "note").Str? then Some(Get(body, "note").s) else None;
      Suspend(dir, admin, idParam, SuspendRequest(body["reason"].s, note), now)
  }

  /** A reason of spaces only is accepted by the schema, which asks for one
      character, and then refused by the handler, which trims first. */
  lemma BlankReasonPassesSchemaOnly(dir: Directory, admin: Caller, uid: Id, reason: string, now: int)
    requires |reason| > 0 && AllSpace(reason)
    ensures Validation.SuspendOk(map["reason" := Str(reason)])
    ensures SuspendRoute(dir, admin, Some(uid), map["reason" := Str(reason)], now).reply == Err(BadRequest)
  {
    var body := map["reason" := Str(reason)];
    assert Get(body, "note") == Undefined;
    assert Validation.OnlyKeys(body, Validation.SuspendKeys);
    BlankIffAllSpace(reason);
  }

  // ---------------------------------------------------------------------------
  // unsuspendDoctor

  /** The re-verification gate: an admin may not unsuspend a profile that is
      still `SUSPENDED` and has no re-verification request on record. */
  predicate AwaitingReverification(p: DoctorProfile) {
    p.verificationStatus == Suspended && p.reverificationRequestedAt.None?
  }

  /** The notification an unsuspended doctor receives. */
  function UnsuspendedNotice(uid: Id): NotificationModel.Draft {
    NotificationModel.Draft(
      Some(uid), Some(NotificationModel.ToDoctor), NotificationModel.Verification, "Account Unsuspended",
      "Your account has been unsuspended. You can use the platform again.",
      Some(map["action" := NotificationModel.MStr("UNSUSPENDED")]))
  }

  /** `unsuspendDoctor`. A malformed id is a 400; a missing or non-doctor
      user, or a missing profile, a 404; a profile awaiting re-verification a
      403. Otherwise the user is reactivated and the suspension stamp
      cleared, then the profile's re-verification request is cleared and the
      profile saved (a profile that fails validation is a 500 after the user
      write). The verification status itself is left as it is. */
  function Unsuspend(dir: Directory, admin: Caller, idParam: Option<Id>, note: Option<string>): (o: Outcome<User>)
    ensures idParam.None? ==> Unchanged(o, dir) && o.reply == Err(BadRequest)
    ensures idParam.Some? && (idParam.value !in dir.users || dir.users[idParam.value].role != Doctor
                              || idParam.value !in dir.profiles) ==>
      Unchanged(o, dir) && o.reply == Err(NotFound)
    ensures o.reply == Err(Forbidden) <==>
      && idParam.Some? && idParam.value in dir.users && dir.users[idParam.value].role == Doctor
      && idParam.value in dir.profiles && AwaitingReverification(dir.profiles[idParam.value])
    ensures o.reply == Err(Forbidden) ==> Unchanged(o, dir)
    ensures o.reply.Ok? <==>
      && idParam.Some? && idParam.value in dir.users && dir.users[idParam.value].role == Doctor
      && idParam.value in dir.profiles && !AwaitingReverification(dir.profiles[idParam.value])
      && Valid(dir.profiles[idParam.value].(reverificationRequestedAt := None))
    ensures (idParam.Some? && idParam.value in dir.users && dir.users[idParam.value].role == Doctor
             && idParam.value in dir.profiles && !AwaitingReverification(dir.profiles[idParam.value])
             && !Valid(dir.profiles[idParam.value].(reverificationRequestedAt := None))) ==>
      var uid := idParam.value;
      && o.reply == Err(InternalError)
      && o.dir == Directory(dir.users[uid := dir.users[uid].(isActive := true, suspendedAt := None)], dir.profiles)
      && o.notices == [] && o.logs == []
    ensures o.reply.Ok? ==> o.notices == [UnsuspendedNotice(idParam.value)]
    ensures o.reply.Ok? ==>
      var uid := idParam.value;
      && uid in dir.users && uid in dir.profiles
      && o.reply.value == dir.users[uid].(isActive := true, suspendedAt := None)
      && o.dir.users == dir.users[uid := o.reply.value]
      && o.dir.profiles == dir.profiles[uid := dir.profiles[uid].(reverificationRequestedAt := None)]
    ensures o.reply.Ok? ==>
      o.logs == [AuditLog.Entry(admin.id, "UNSUSPEND_DOCTOR", "DOCTOR", idParam.value,
                                if Filled(note) then note.value else "Doctor unsuspended by admin")]
  {
    if idParam.None? then Refuse(dir, BadRequest)
    else
      var uid := idParam.value;
      if uid !in dir.users || dir.users[uid].role != Doctor then Refuse(dir, NotFound)
      else if uid !in dir.profiles then Refuse(dir, NotFound)
      else
        var p := dir.profiles[uid];
        if AwaitingReverification(p) then Refuse(dir, Forbidden)
        else
          var user := dir.users[uid].(isActive := true, suspendedAt := None);
          var users := dir.users[uid := user];
          match Save(p.(reverificationRequestedAt := None))
          case Err(code) => Outcome(Directory(users, dir.profiles), [], [], Err(code))
          case Ok(saved) =>
            var text := if Filled(note) then note.value else "Doctor unsuspended by admin";
            var entry := AuditLog.NewEntry(admin.id, "UNSUSPEND_DOCTOR", Some("DOCTOR"), uid, Some(text));
            Outcome(Directory(users, dir.profiles[uid := saved]), [UnsuspendedNotice(uid)], [entry], Ok(user))
  }

  // ---------------------------------------------------------------------------
  // editDoctorProfile: which fields go where

  const UserFields: set<string> := {"name", "email", "role", "phone"}
  const ProfileFields: set<string> := {"specialization", "experienceYears", "fee", "bio", "licenseNo"}

  /** The editor's normalised body: `name || fullName`, `phone || phoneNumber`,
      `specialization || department`, `fee` unless undefined then
      `consultationFee`, and the other fields as sent. */
  function NormaliseEdit(body: Body): (n: map<string, JsValue>)
    ensures n.Keys == UserFields + ProfileFields
  {
    map[
      "name" := Or(Get(body, "name"), Get(body, "fullName")),
      "email" := Get(body, "email"),
      "role" := Get(body, "role"),
      "phone" := Or(Get(body, "phone"), Get(body, "phoneNumber")),
      "specialization" := Or(Get(body, "specialization"), Get(body, "department")),
      "fee" := IfDefined(Get(body, "fee"), Get(body, "consultationFee")),
      "experienceYears" := Get(body, "experienceYears"),
      "bio" := Get(body, "bio"),
      "licenseNo" := Get(body, "licenseNo")]
  }

  /** The two update documents: user fields and profile fields. */
  datatype EditPlan = EditPlan(userUpdate: Body, profileUpdate: Body)

  /** The partition and the checks before any write: every defined
      normalised field lands in exactly one of the two documents with its
      value; nothing to update is a 400, and so, after that, is a malformed id. */
  function PlanEdit(body: Body, idParam: Option<Id>): (r: Result<EditPlan>)
    ensures r.Ok? ==> idParam.Some?
    ensures r.Ok? ==> r.value.userUpdate.Keys <= UserFields && r.value.profileUpdate.Keys <= ProfileFields
    ensures r.Ok? ==> r.value.userUpdate.Keys !! r.value.profileUpdate.Keys
    ensures r.Ok? ==> forall k :: k in UserFields + ProfileFields ==>
      ((k in r.value.userUpdate || k in r.value.profileUpdate) <==> !NormaliseEdit(body)[k].Undefined?)
    ensures r.Ok? ==> forall k :: k in r.value.userUpdate ==> r.value.userUpdate[k] == NormaliseEdit(body)[k]
    ensures r.Ok? ==> forall k :: k in r.value.profileUpdate ==> r.value.profileUpdate[k] == NormaliseEdit(body)[k]
    ensures r.Ok? ==> |r.value.userUpdate| + |r.value.profileUpdate| > 0
    ensures r.Err? ==> r.code == BadRequest
    ensures (forall k :: k in UserFields + ProfileFields ==> NormaliseEdit(body)[k].Undefined?) ==> r.Err?
  {
    Partition(NormaliseEdit(body), idParam)
  }

  /** The partition of a normalised body `n`, whatever its values. */
  function Partition(n: map<string, JsValue>, idParam: Option<Id>): (r: Result<EditPlan>)
    requires n.Keys == UserFields + ProfileFields
    ensures r.Ok? ==> idParam.Some?
    ensures r.Ok? ==> r.value.userUpdate.Keys <= UserFields && r.value.profileUpdate.Keys <= ProfileFields
    ensures r.Ok? ==> r.value.userUpdate.Keys !! r.value.profileUpdate.Keys
    ensures r.Ok? ==> forall k :: k in UserFields + ProfileFields ==>
      ((k in r.value.userUpdate || k in r.value.profileUpdate) <==> !n[k].Undefined?)
    ensures r.Ok? ==> forall k :: k in r.value.userUpdate ==> r.value.userUpdate[k] == n[k]
    ensures r.Ok? ==> forall k :: k in r.value.profileUpdate ==> r.value.profileUpdate[k] == n[k]
    ensures r.Ok? ==> |r.value.userUpdate| + |r.value.profileUpdate| > 0
    ensures r.Err? ==> r.code == BadRequest
    ensures (forall k :: k in UserFields + ProfileFields ==> n[k].Undefined?) ==> r.Err?
  {
    var userUpdate := DefinedPart(n, UserFields);
    var profileUpdate := DefinedPart(n, ProfileFields);
    FieldsDisjoint();
    if |userUpdate| == 0 && |profileUpdate| == 0 then
      Err(BadRequest)
    else if idParam.None? then Err(BadRequest)
    else
      Ok(EditPlan(userUpdate, profileUpdate))
  }

  /** No field belongs to both documents. */
  lemma FieldsDisjoint()
    ensures UserFields !! ProfileFields
  {
  }

  /** The fields of `keys` that `n` defines, with their values. */
  function DefinedPart(n: map<string, JsValue>, keys: set<string>): (m: map<string, JsValue>)
    requires keys <= n.Keys
    ensures m.Keys <= keys
    ensures forall k :: k in keys ==> (k in m <==> !n[k].Undefined?)
    ensures forall k :: k in m ==> m[k] == n[k]
    ensures |m| == 0 <==> forall k :: k in keys ==> n[k].Undefined?
  {
    var m := map k | k in keys && !n[k].Undefined? :: n[k];
    assert |m| == 0 <==> forall k :: k in keys ==> n[k].Undefined? by {
      if k :| k in keys && !n[k].Undefined? {
        assert k in m.Keys;
      }
    }
    m
  }

  /** Behind the edit schema, a body carrying only user fields still has
      something to update: the non-strict schema lets `name` through and the
      partition sends it to the user document. */
  lemma EditNameOnlyReachesUser(name: string)
    requires name != ""
    ensures Validation.EditDoctorProfileOk(map["name" := Str(name)])
    ensures var r := PlanEdit(map["name" := Str(name)], Some(0));
      r.Ok? && r.value.userUpdate == map["name" := Str(name)] && r.value.profileUpdate == map[]
  {
    var body := map["name" := Str(name)];
    var n := NormaliseEdit(body);
    assert n["name"] == Str(name);
    assert forall k :: k in UserFields + ProfileFields && k != "name" ==> n[k] == Undefined;
    OneUserField(n, "name", 0);
  }

  /** A normalised body defining a single user field updates that field of
      the user document and nothing else. */
  lemma OneUserField(n: map<string, JsValue>, k: string, id: Id)
    requires n.Keys == UserFields + ProfileFields
    requires k in UserFields && !n[k].Undefined?
    requires forall j :: j in UserFields + ProfileFields && j != k ==> n[j].Undefined?
    ensures Partition(n, Some(id)) == Ok(EditPlan(map[k := n[k]], map[]))
  {
    FieldsDisjoint();
    DefinedPartSingle(n, UserFields, k);
    DefinedPartNone(n, ProfileFields);
  }

  /** Only `k` defined among `keys`: the part is `k` alone. */
  lemma DefinedPartSingle(n: map<string, JsValue>, keys: set<string>, k: string)
    requires keys <= n.Keys && k in keys && !n[k].Undefined?
    requires forall j :: j in keys && j != k ==> n[j].Undefined?
    ensures DefinedPart(n, keys) == map[k := n[k]]
  {
    assert DefinedPart(n, keys).Keys == {k};
  }

  /** Nothing defined among `keys`: the part is empty. */
  lemma DefinedPartNone(n: map<string, JsValue>, keys: set<string>)
    requires keys <= n.Keys
    requires forall j :: j in keys ==> n[j].Undefined?
    ensures DefinedPart(n, keys) == map[]
  {
    assert DefinedPart(n, keys).Keys == {};
  }
}
