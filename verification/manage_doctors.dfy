/** The admin's doctor list: the status and account badges of each doctor,
    the filters and the pager, and the suspend and unsuspend buttons with the
    requests they send.
 */
module ManageDoctors {

  import opened Wrappers
  import opened Text
  import opened Js
  import opened Entities
  import opened Profiles
  import Effects
  import Pagination
  import Validation
  import AdminDoctors

  // ---------------------------------------------------------------------------
  // Badges

  /** The colour of a badge. */
  datatype Tone = Orange | Yellow | Green | Red | Gray

  datatype Badge = Badge(text: string, tone: Tone)

  /** The class lookup of the status badge: the three known statuses have a
      colour of their own, anything else is gray. */
  function StatusTone(status: string): (t: Tone)
    ensures t == Gray <==> status !in {"PENDING", "VERIFIED", "REJECTED"}
  {
    if status == "PENDING" then Yellow
    else if status == "VERIFIED" then Green
    else if status == "REJECTED" then Red
    else Gray
  }

  /** `getStatusBadge(verificationStatus, user)`: a suspended account reads
      SUSPENDED whatever its verification status; otherwise the status text
      is shown as it is. */
  function StatusBadge(status: string, user: User): (b: Badge)
    ensures user.suspendedAt.Some? <==> b == Badge("SUSPENDED", Orange)
    ensures user.suspendedAt.None? ==> b.text == status
  {
    if user.suspendedAt.Some? then Badge("SUSPENDED", Orange)
    else Badge(status, StatusTone(status))
  }

  /** The account states the second badge tells apart. */
  datatype Activity = AccountDeleted | AccountSuspended | AccountActive

  /** `getActiveBadge(user)`: a deleted account reads Deleted even when it is
      also suspended; a suspended one Suspended; any other Active. */
  function ActiveBadge(user: User): (a: Activity)
    ensures a == AccountDeleted <==> user.deletedAt.Some?
    ensures a == AccountSuspended <==> user.deletedAt.None? && user.suspendedAt.Some?
    ensures a == AccountActive <==> user.deletedAt.None? && user.suspendedAt.None?
  {
    if user.deletedAt.Some? then AccountDeleted
    else if user.suspendedAt.Some? then AccountSuspended
    else AccountActive
  }

  /** Which of the two account buttons a doctor's row offers. */
  datatype AccountButton = SuspendButton | UnsuspendButton

  function ButtonFor(user: User): (b: AccountButton)
    ensures b == SuspendButton <==> user.suspendedAt.None?
  {
    if user.suspendedAt.None? then SuspendButton else UnsuspendButton
  }

  /** After a successful suspension the row the list shows for that account
      reads SUSPENDED, offers Unsuspend, and (unless the account was deleted)
      reads Suspended. */
  lemma SuspendedRowShowsSuspension(dir: Directory, admin: Caller, idParam: Option<Id>,
                                    req: AdminDoctors.SuspendRequest, now: int, status: string)
    requires AdminDoctors.Suspend(dir, admin, idParam, req, now).reply.Ok?
    ensures var u := AdminDoctors.Suspend(dir, admin, idParam, req, now).reply.value;
      && StatusBadge(status, u) == Badge("SUSPENDED", Orange)
      && ButtonFor(u) == UnsuspendButton
      && ActiveBadge(u) == (if dir.users[idParam.value].deletedAt.Some? then AccountDeleted else AccountSuspended)
  {
  }

  /** After a successful unsuspension the row shows the verification status
      again, offers Suspend, and reads Active unless the account was deleted. */
  lemma UnsuspendedRowShowsStatus(dir: Directory, admin: Caller, idParam: Option<Id>,
                                  note: Option<string>, status: string)
    requires AdminDoctors.Unsuspend(dir, admin, idParam, note).reply.Ok?
    ensures var u := AdminDoctors.Unsuspend(dir, admin, idParam, note).reply.value;
      && StatusBadge(status, u) == Badge(status, StatusTone(status))
      && ButtonFor(u) == SuspendButton
      && ActiveBadge(u) == (if dir.users[idParam.value].deletedAt.Some? then AccountDeleted else AccountActive)
  {
  }

  // ---------------------------------------------------------------------------
  // Filters and pager

  /** The three filters: verification status, account state and the search
      text. */
  datatype Filters = Filters(status: string, active: string, q: string)

  datatype FilterField = StatusFilter | ActiveFilter | SearchFilter

  /** The page being shown, its size and the total the server reported. */
  datatype Pager = Pager(page: int, limit: int, total: int)

  datatype View = View(filters: Filters, pager: Pager)

  /** The page opens with no filter, on page 1 of 10 doctors. */
  function InitialView(): (v: View)
    ensures v.filters == Filters("", "", "") && v.pager.page == 1 && v.pager.limit == 10
  {
    View(Filters("", "", ""), Pager(1, 10, 0))
  }

  function FilterOf(f: Filters, field: FilterField): string {
    match field
    case StatusFilter => f.status
    case ActiveFilter => f.active
    case SearchFilter => f.q
  }

  /** `handleFilterChange(field, value)`: the one filter takes the value and
      the list goes back to page 1. */
  function ChangeFilter(v: View, field: FilterField, value: string): (r: View)
    ensures r.pager == v.pager.(page := 1)
    ensures forall g :: FilterOf(r.filters, g) == (if g == field then value else FilterOf(v.filters, g))
  {
    var f := v.filters;
    var f' := match field
      case StatusFilter => f.(status := value)
      case ActiveFilter => f.(active := value)
      case SearchFilter => f.(q := value);
    View(f', v.pager.(page := 1))
  }

  /** The clear button: every filter empty, back to page 1. */
  function ClearFilters(v: View): (r: View)
    ensures forall g :: FilterOf(r.filters, g) == ""
    ensures r.pager == v.pager.(page := 1)
  {
    View(Filters("", "", ""), v.pager.(page := 1))
  }

  /** `handlePageChange(n)`: only the page moves. */
  function ChangePage(v: View, n: int): (r: View)
    ensures r.filters == v.filters && r.pager == v.pager.(page := n)
  {
    View(v.filters, v.pager.(page := n))
  }

  /** Clearing the filters undoes any filter changes, and whatever the admin
      changed in between only the page size and total are remembered. */
  lemma ClearUndoesChanges(v: View, field: FilterField, value: string)
    ensures ClearFilters(ChangeFilter(v, field, value)) == ClearFilters(v)
  {
  }

  /** The pager line "Showing {from} to {to} of {total} doctors". */
  function ShowingFrom(p: Pager): int {
    (p.page - 1) * p.limit + 1
  }

  function ShowingTo(p: Pager): int {
    if p.page * p.limit < p.total then p.page * p.limit else p.total
  }

  /** The Previous button is disabled on page 1 and before. */
  predicate PreviousDisabled(p: Pager) {
    p.page <= 1
  }

  /** The Next button is disabled once this page reaches the total. */
  predicate NextDisabled(p: Pager) {
    p.page * p.limit >= p.total
  }

  /** With a positive page size and a page from 1 on, Next is enabled exactly
      when a later page exists among the ones the server counts. */
  lemma NextIffLaterPage(p: Pager)
    requires p.limit > 0 && p.page >= 1 && p.total >= 0
    ensures !NextDisabled(p) <==> p.page < Pagination.Pages(p.total, p.limit)
  {
    var n := Pagination.Pages(p.total, p.limit);
    if p.page < n {
      Pagination.MultiplyMonotone(p.page, n - 1, p.limit);
    } else {
      Pagination.MultiplyMonotone(n, p.page, p.limit);
    }
  }

  /** The pager line counts exactly the doctors the server sends for that
      page: on any page of the advertised range the line runs from the first
      to the last doctor of the window, within the total. */
  lemma ShowingMatchesWindow<T>(items: seq<T>, page: int, limit: int)
    requires limit > 0 && 1 <= page <= Pagination.Pages(|items|, limit)
    ensures var p := Pager(page, limit, |items|);
      var w := Pagination.Window(items, Pagination.Skip(page, limit), limit);
      && w.Ok?
      && 1 <= ShowingFrom(p) <= ShowingTo(p) <= |items|
      && ShowingTo(p) - ShowingFrom(p) + 1 == |w.value|
      && w.value == items[ShowingFrom(p) - 1..ShowingTo(p)]
  {
    Pagination.PageWithinCount(items, page, limit);
    Pagination.MultiplyMonotone(1, page, limit);
  }

  // ---------------------------------------------------------------------------
  // Suspend and unsuspend

  /** The id guard of both buttons: a missing or empty id, and the strings
      `undefined` and `null` a missing id turns into, are refused. */
  predicate ValidId(id: Option<string>) {
    Filled(id) && id.value != "undefined" && id.value != "null"
  }

  /** `prompt(...) || fallback`: a cancelled (`None`) or empty answer gives
      the fallback. */
  function PromptOr(answer: Option<string>, fallback: string): (r: string)
    ensures Filled(answer) ==> r == answer.value
    ensures !Filled(answer) ==> r == fallback
    ensures fallback != "" ==> r != ""
  {
    if Filled(answer) then answer.value else fallback
  }

  const SuspendFallback := "Doctor suspended by admin"
  const UnsuspendFallback := "Doctor unsuspended by admin"

  /** What pressing one of the buttons does: an error on the page, nothing
      (the confirmation was declined), or a request. */
  datatype Press = InvalidId | Declined | Request(id: string, body: Body)

  /** A request body carrying the admin's text under a single key: `note`
      is what the page sends for both buttons, `reason` is what the suspend
      schema expects. */
  function BodyUnder(key: string, text: string): (b: Body)
    ensures b.Keys == {key} && b[key] == Str(text)
  {
    map[key := Str(text)]
  }

  /** The key the page puts the suspension reason under. */
  const SentKey := "note"

  /** The key the suspend schema reads the reason from. */
  const SchemaKey := "reason"

  /** `handleSuspend(id)`, sending the reason under `key`: the page as
      written uses `SentKey`. */
  function PressSuspend(key: string, id: Option<string>, confirmed: bool, answer: Option<string>): (p: Press)
    ensures p == InvalidId <==> !ValidId(id)
    ensures p.Request? <==> ValidId(id) && confirmed
    ensures p.Request? ==> p.id == id.value && p.body == BodyUnder(key, PromptOr(answer, SuspendFallback))
  {
    if !ValidId(id) then InvalidId
    else if !confirmed then Declined
    else Request(id.value, BodyUnder(key, PromptOr(answer, SuspendFallback)))
  }

  /** `handleUnsuspend(id)`: the reason goes under `note`, which is what the
      unsuspend schema asks for. */
  function PressUnsuspend(id: Option<string>, confirmed: bool, answer: Option<string>): (p: Press)
    ensures p == InvalidId <==> !ValidId(id)
    ensures p.Request? <==> ValidId(id) && confirmed
    ensures p.Request? ==> p.id == id.value && p.body == BodyUnder("note", PromptOr(answer, UnsuspendFallback))
  {
    if !ValidId(id) then InvalidId
    else if !confirmed then Declined
    else Request(id.value, BodyUnder("note", PromptOr(answer, UnsuspendFallback)))
  }

  /** Every suspend request the page sends is refused by the schema with a
      400 and changes nothing, whatever the admin typed and whichever doctor
      was chosen. */
  lemma SuspendAlwaysRejected(dir: Directory, admin: Caller, id: Option<string>, answer: Option<string>,
                              idParam: Option<Id>, now: int)
    requires PressSuspend(SentKey, id, true, answer).Request?
    ensures var o := AdminDoctors.SuspendRoute(dir, admin, idParam, PressSuspend(SentKey, id, true, answer).body, now);
      Effects.Unchanged(o, dir) && o.reply == Err(BadRequest)
  {
    var body := PressSuspend(SentKey, id, true, answer).body;
    assert Get(body, "reason") == Undefined;
    assert !Validation.SuspendOk(body);
  }

  /** The corrected request always passes the suspend schema: the fallback
      keeps the reason non-empty. */
  lemma CorrectedSuspendPassesSchema(id: Option<string>, answer: Option<string>)
    requires PressSuspend(SchemaKey, id, true, answer).Request?
    ensures Validation.SuspendOk(PressSuspend(SchemaKey, id, true, answer).body)
  {
    var body := PressSuspend(SchemaKey, id, true, answer).body;
    assert Get(body, "reason") == Str(PromptOr(answer, SuspendFallback));
    assert Get(body, "note") == Undefined;
  }

  /** With the corrected body, a suspension of an existing doctor with a
      reason that is not only whitespace goes through. */
  lemma CorrectedSuspendSucceeds(dir: Directory, admin: Caller, id: Option<string>, answer: Option<string>,
                                 uid: Id, now: int)
    requires PressSuspend(SchemaKey, id, true, answer).Request?
    requires uid in dir.users && dir.users[uid].role == Doctor
    requires !IsBlank(PromptOr(answer, SuspendFallback))
    ensures AdminDoctors.SuspendRoute(dir, admin, Some(uid), PressSuspend(SchemaKey, id, true, answer).body, now).reply.Ok?
  {
    CorrectedSuspendPassesSchema(id, answer);
  }

  /** Every unsuspend request the page sends passes the unsuspend schema. */
  lemma UnsuspendPassesSchema(id: Option<string>, answer: Option<string>)
    requires PressUnsuspend(id, true, answer).Request?
    ensures Validation.UnsuspendOk(PressUnsuspend(id, true, answer).body)
  {
    var body := PressUnsuspend(id, true, answer).body;
    assert Get(body, "note") == Str(PromptOr(answer, UnsuspendFallback));
  }
}
