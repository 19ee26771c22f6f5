/** The stored notification record and `createNotification`, which fills in
    the schema's defaults and never lets a persistence failure escape.
 */
module NotificationModel {

  import opened Wrappers
  import Entities

  type Id = Entities.Id

  /** Who a notification is addressed to when it has no single recipient. */
  datatype Audience = ToAdmin | ToDoctor | ToPatient | ToAll {

    function Name(): string {
      match this
      case ToAdmin => "ADMIN"
      case ToDoctor => "DOCTOR"
      case ToPatient => "PATIENT"
      case ToAll => "ALL"
    }
  }

  /** The audience a user role belongs to. */
  function AudienceOf(role: Entities.Role): (a: Audience)
    ensures a != ToAll
    ensures a.Name() == role.Name()
  {
    match role
    case Patient => ToPatient
    case Doctor => ToDoctor
    case Admin => ToAdmin
  }

  /** The notification types the schema allows. */
  datatype Kind = Appointment | Payment | Prescription | Chat | Verification | System

  /** A metadata value: an id or a string. */
  datatype Meta = MId(id: Id) | MStr(s: string)

  /** A stored notification; times are milliseconds. */
  datatype Notification = Notification(
    id: Id,
    recipientUserId: Option<Id>,
    recipientRole: Audience,
    kind: Kind,
    title: string,
    message: string,
    read: bool,
    readAt: Option<int>,
    metadata: map<string, Meta>,
    createdAt: int)

  /** The argument of `createNotification`; a missing recipient, role or
      metadata is `None`. */
  datatype Draft = Draft(
    recipientUserId: Option<Id>,
    recipientRole: Option<Audience>,
    kind: Kind,
    title: string,
    message: string,
    metadata: Option<map<string, Meta>>)

  /** `createNotification(d)`. The recipient defaults to none, the role to
      `ALL`, the metadata to `{}`; the notification starts unread. When the
      save fails (`saved` is false, or a required title or message is empty)
      the function returns `null` instead of throwing. */
  function Create(d: Draft, id: Id, now: int, saved: bool): (r: Option<Notification>)
    ensures r.Some? <==> saved && d.title != "" && d.message != ""
    ensures r.Some? ==> r.value.recipientUserId == d.recipientUserId
    ensures r.Some? && d.recipientRole.None? ==> r.value.recipientRole == ToAll
    ensures r.Some? && d.recipientRole.Some? ==> r.value.recipientRole == d.recipientRole.value
    ensures r.Some? && d.metadata.None? ==> r.value.metadata == map[]
    ensures r.Some? && d.metadata.Some? ==> r.value.metadata == d.metadata.value
    ensures r.Some? ==> !r.value.read && r.value.readAt == None
    ensures r.Some? ==> r.value.kind == d.kind && r.value.title == d.title && r.value.message == d.message
    ensures r.Some? ==> r.value.id == id && r.value.createdAt == now
  {
    if saved && d.title != "" && d.message != "" then
      Some(Notification(
        id, d.recipientUserId, d.recipientRole.GetOr(ToAll), d.kind, d.title, d.message,
        false, None, d.metadata.GetOr(map[]), now))
    else None
  }
}
