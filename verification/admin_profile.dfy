/** An admin editing their own account: the alias normalisation and field
    checks of `updateAdminProfile`, the e-mail pattern it tests, and the
    input checks of `changeAdminPassword`.
 */
module AdminProfile {

  import opened Wrappers
  import opened Text
  import opened Js
  import opened Entities
  import Validation

  // ---------------------------------------------------------------------------
  // The e-mail pattern `^\S+@\S+\.\S+$`

  /** What the pattern demands: no whitespace, an `@` that is not the first
      character, and a `.` at least two places after it that is not the last. */
  predicate EmailShape(s: string) {
    && NoSpace(s)
    && exists i, j | 0 < i < j < |s| - 1 :: i + 2 <= j && s[i] == '@' && s[j] == '.'
  }

  /** A single pass that decides the pattern: it tracks the first `@` after
      position 0 and the last `.` before the final character. */
  method IsEmailShaped(s: string) returns (b: bool)
    ensures b <==> EmailShape(s)
  {
    var noSpace := true;
    var firstAt := -1;
    var lastDot := -1;
    var i := 0;
    while i < |s|
      invariant 0 <= i <= |s|
      invariant noSpace <==> forall k :: 0 <= k < i ==> !IsSpace(s[k])
      invariant firstAt == -1 ==> forall k :: 0 < k < i ==> s[k] != '@'
      invariant firstAt != -1 ==> 0 < firstAt < i && s[firstAt] == '@'
      invariant firstAt != -1 ==> forall k :: 0 < k < firstAt ==> s[k] != '@'
      invariant lastDot == -1 ==> forall k :: 0 <= k < i && k < |s| - 1 ==> s[k] != '.'
      invariant lastDot != -1 ==> 0 <= lastDot < i && lastDot < |s| - 1 && s[lastDot] == '.'
      invariant lastDot != -1 ==> forall k :: lastDot < k < i && k < |s| - 1 ==> s[k] != '.'
    {
      if IsSpace(s[i]) {
        noSpace := false;
      }
      if i > 0 && s[i] == '@' && firstAt == -1 {
        firstAt := i;
      }
      if s[i] == '.' && i < |s| - 1 {
        lastDot := i;
      }
      i := i + 1;
    }
    b := noSpace && firstAt != -1 && lastDot != -1 && firstAt + 2 <= lastDot;
    if b {
      assert 0 < firstAt < lastDot < |s| - 1 && s[firstAt] == '@' && s[lastDot] == '.';
    }
  }

  // ---------------------------------------------------------------------------
  // updateAdminProfile

  /** The body after alias resolution: `name || fullName`, `phone` unless it
      is undefined then `phoneNumber`, and `email` and `role` as sent. */
  datatype Normalised = Normalised(name: JsValue, phone: JsValue, email: JsValue, role: JsValue)

  function Normalise(body: Body): Normalised {
    Normalised(
      Or(Get(body, "name"), Get(body, "fullName")),
      IfDefined(Get(body, "phone"), Get(body, "phoneNumber")),
      Get(body, "email"),
      Get(body, "role"))
  }

  /** No field survives the dropping of undefined keys. */
  predicate NoFields(n: Normalised) {
    n.name.Undefined? && n.phone.Undefined? && n.email.Undefined? && n.role.Undefined?
  }

  /** The `$set` document the handler sends to the store; a field is `None`
      when it is not updated. A phone may be any JSON value; `null` clears it. */
  datatype AdminUpdate = AdminUpdate(
    name: Option<string>,
    phone: Option<JsValue>,
    email: Option<string>,
    role: Option<Role>)

  /** A name the handler accepts: absent, or a non-empty string. */
  predicate NameAccepted(v: JsValue) {
    v.Undefined? || (v.Str? && v.s != "")
  }

  /** An e-mail the handler accepts: absent, or a non-empty string of the
      e-mail shape. */
  predicate EmailAccepted(v: JsValue) {
    v.Undefined? || (v.Str? && v.s != "" && EmailShape(v.s))
  }

  /** A role the handler accepts: absent, or the name of a role. */
  predicate RoleAccepted(v: JsValue) {
    v.Undefined? || (v.Str? && ParseRole(v.s).Some?)
  }

  /** A body every field check of the handler accepts. */
  predicate Admissible(n: Normalised) {
    !NoFields(n) && NameAccepted(n.name) && EmailAccepted(n.email) && RoleAccepted(n.role)
  }

  /** `updateAdminProfile`. The checks run in this order: no fields (400);
      a name of `''` or `null` (400), any other non-string name (which has no
      `trim`, so 500), otherwise the name is trimmed; a phone of `''` or
      `null` becomes `null`; an e-mail that is `''`, `null` or does not match
      the pattern (400); a role outside the enum (400). The store's own
      validators (`storeAccepts`) then answer 400, and a missing admin
      (`found`) 404. */
  function UpdateAdminProfile(body: Body, storeAccepts: bool, found: bool): (r: Result<AdminUpdate>)
    ensures NoFields(Normalise(body)) ==> r == Err(BadRequest)
    ensures !NoFields(Normalise(body)) && Normalise(body).name in {Null, Str("")} ==> r == Err(BadRequest)
    ensures (!NoFields(Normalise(body)) && !Normalise(body).name.Str? && !Normalise(body).name.Null?
             && !Normalise(body).name.Undefined?) ==> r == Err(InternalError)
    ensures (!NoFields(Normalise(body)) && NameAccepted(Normalise(body).name)
             && !(EmailAccepted(Normalise(body).email) && RoleAccepted(Normalise(body).role))) ==> r == Err(BadRequest)
    ensures Admissible(Normalise(body)) && !storeAccepts ==> r == Err(BadRequest)
    ensures Admissible(Normalise(body)) && storeAccepts && !found ==> r == Err(NotFound)
    ensures r.Ok? <==> Admissible(Normalise(body)) && storeAccepts && found
    ensures r.Err? ==> r.code in {BadRequest, NotFound, InternalError}
    ensures r.Err? && r.code == InternalError ==>
      var n := Normalise(body).name; !n.Str? && !n.Null? && !n.Undefined?
    ensures r.Ok? ==> storeAccepts && found
    ensures r.Ok? ==> (r.value.name.Some? <==> Normalise(body).name.Str?)
    ensures r.Ok? && r.value.name.Some? ==>
      NoOuterSpace(r.value.name.value) && r.value.name.value == Trim(Normalise(body).name.s)
    ensures r.Ok? ==> (r.value.phone.Some? <==> !Normalise(body).phone.Undefined?)
    ensures r.Ok? && Normalise(body).phone in {Null, Str("")} ==> r.value.phone == Some(Null)
    ensures r.Ok? && Normalise(body).phone !in {Undefined, Null, Str("")} ==> r.value.phone == Some(Normalise(body).phone)
    ensures r.Ok? ==> (r.value.email.Some? <==> !Normalise(body).email.Undefined?)
    ensures r.Ok? && r.value.email.Some? ==>
      Get(body, "email") == Str(r.value.email.value) && EmailShape(r.value.email.value)
    ensures r.Ok? ==> (r.value.role.Some? <==> !Get(body, "role").Undefined?)
    ensures r.Ok? && r.value.role.Some? ==> Get(body, "role") == Str(r.value.role.value.Name())
  {
    var n := Normalise(body);
    if NoFields(n) then Err(BadRequest)
    else
      var name :-
        match n.name
        case Undefined => Ok(None)
        case Null => Err(BadRequest)
        case Str(s) => if s == "" then Err(BadRequest) else Ok(Some(Trim(s)))
        case _ => Err(InternalError);
      var phone :=
        if n.phone.Undefined? then None
        else if n.phone == Null || n.phone == Str("") then Some(Null)
        else Some(n.phone);
      var email :-
        match n.email
        case Undefined => Ok(None)
        case Str(s) => if s != "" && EmailShape(s) then Ok(Some(s)) else Err(BadRequest)
        case _ => Err(BadRequest);
      var role :-
        match n.role
        case Undefined => Ok(None)
        case Str(s) => if ParseRole(s).Some? then Ok(ParseRole(s)) else Err(BadRequest)
        case _ => Err(BadRequest);
      if !storeAccepts then Err(BadRequest)
      else if !found then Err(NotFound)
      else Ok(AdminUpdate(name, phone, email, role))
  }

  /** Behind the strict schema the aliases are never read: the normalised
      fields are exactly the keys the client sent. */
  lemma SchemaBodyNeedsNoAliases(body: Body, isEmail: string -> bool)
    requires Validation.AdminProfileOk(body, isEmail)
    ensures Normalise(body) == Normalised(Get(body, "name"), Get(body, "phone"), Get(body, "email"), Get(body, "role"))
  {
    Validation.StrictSchemasRejectAliases(body, isEmail);
  }

  /** A name of spaces only passes both the schema (it is not empty) and the
      handler's emptiness check, which runs before the trim, so an empty
      name is sent to the store. */
  lemma BlankNameIsStoredEmpty(s: string, isEmail: string -> bool)
    requires |s| > 0 && AllSpace(s)
    ensures Validation.AdminProfileOk(map["name" := Str(s)], isEmail)
    ensures UpdateAdminProfile(map["name" := Str(s)], true, true).Ok?
    ensures UpdateAdminProfile(map["name" := Str(s)], true, true).value.name == Some("")
  {
    var body := map["name" := Str(s)];
    assert Get(body, "phone") == Undefined && Get(body, "email") == Undefined && Get(body, "role") == Undefined;
    assert Validation.OnlyKeys(body, Validation.AdminProfileKeys);
    BlankIffAllSpace(s);
  }

  /** A phone of `''` is kept as a cleared phone rather than refused. */
  lemma EmptyPhoneClears()
    ensures UpdateAdminProfile(map["phone" := Str("")], true, true) == Ok(AdminUpdate(None, Some(Null), None, None))
  {
    var body := map["phone" := Str("")];
    assert Get(body, "name") == Undefined && Get(body, "fullName") == Undefined;
    assert Get(body, "email") == Undefined && Get(body, "role") == Undefined;
  }

  // ---------------------------------------------------------------------------
  // changeAdminPassword

  /** The input checks of `changeAdminPassword`: `currentPassword ||
      oldPassword` and `newPassword || password` must both be truthy (400),
      the admin must exist (404) and `matches` (the stored hash check) must
      accept the current password (400). The result is the new password to
      store. */
  function ChangePassword(body: Body, found: bool, matches: JsValue -> bool): (r: Result<JsValue>)
    ensures r.Ok? ==> Truthy(r.value) && found
    ensures r.Ok? ==> matches(Or(Get(body, "currentPassword"), Get(body, "oldPassword")))
    ensures r.Ok? ==> r.value == Or(Get(body, "newPassword"), Get(body, "password"))
    ensures !Truthy(Get(body, "currentPassword")) && !Truthy(Get(body, "oldPassword")) ==> r == Err(BadRequest)
    ensures !Truthy(Get(body, "newPassword")) && !Truthy(Get(body, "password")) ==> r == Err(BadRequest)
    ensures r.Err? ==> r.code in {BadRequest, NotFound}
  {
    var current := Or(Get(body, "currentPassword"), Get(body, "oldPassword"));
    var next := Or(Get(body, "newPassword"), Get(body, "password"));
    if !Truthy(current) then Err(BadRequest)
    else if !Truthy(next) then Err(BadRequest)
    else if !found then Err(NotFound)
    else if !matches(current) then Err(BadRequest)
    else Ok(next)
  }

  /** Behind the strict schema the password aliases are never read. */
  lemma SchemaPasswordsNeedNoAliases(body: Body, found: bool, matches: JsValue -> bool)
    requires Validation.ChangePasswordOk(body)
    ensures var r := ChangePassword(body, found, matches);
      r.Ok? <==> found && matches(body["currentPassword"])
    ensures var r := ChangePassword(body, found, matches);
      r.Ok? ==> r.value == body["newPassword"]
  {
    Validation.StrictSchemasRejectAliases(body, _ => true);
  }
}
