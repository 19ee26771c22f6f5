/** The browser's notification store: the list the bell and the panel show,
    the operations that change it locally before the server is told, and the
    guards around refetching it from the server.

    Entries come from two places: the server (they carry an `_id`) and the
    browser itself (they carry an `id`). Timestamps are ISO strings; the
    current time is passed in, both as milliseconds and as its ISO text.
 */
module NotificationContext {

  import opened Wrappers
  import opened Js
  import Text
  import Seqs

  /** One entry of the list, with the keys the pages read. */
  datatype Item = Item(
    mongoId: Option<string>,        // `_id`, on entries fetched from the server
    id: Option<string>,             // `id`, on entries added in the browser
    kind: Option<string>,           // `type`
    action: Option<string>,         // `metadata.action`
    link: JsValue,
    read: bool,
    readAt: Option<string>,
    timestamp: Option<string>,
    createdAt: Option<string>,
    appointmentId: Option<string>,
    paymentId: Option<string>,
    prescriptionId: Option<string>,
    status: Option<string>)

  /** The keys a caller of `addNotification` sets; every other key of the new
      entry is absent. */
  datatype Supplied = Supplied(
    id: Option<string>,
    read: Option<bool>,
    timestamp: Option<string>,
    kind: Option<string>,
    action: Option<string>,
    link: JsValue,
    appointmentId: Option<string>,
    paymentId: Option<string>,
    prescriptionId: Option<string>,
    status: Option<string>)

  /** A supplied object that sets nothing but its type and the dedupe keys. */
  function Keys(kind: string, appointmentId: Option<string>, paymentId: Option<string>,
                prescriptionId: Option<string>, status: Option<string>): Supplied {
    Supplied(None, None, None, Some(kind), None, Undefined, appointmentId, paymentId, prescriptionId, status)
  }

  // ---------------------------------------------------------------------------
  // Unread count

  /** `!n.read`. */
  predicate Unread(n: Item) {
    !n.read
  }

  /** `unreadCount`: the entries not yet read. */
  function UnreadCount(list: seq<Item>): (c: nat)
    ensures c <= |list|
    ensures c == 0 <==> forall i :: 0 <= i < |list| ==> list[i].read
  {
    Seqs.Count(list, (n: Item) => Unread(n))
  }

  /** The unread count of a list with one more entry in front. */
  lemma UnreadCountCons(n: Item, list: seq<Item>)
    ensures UnreadCount([n] + list) == UnreadCount(list) + (if n.read then 0 else 1)
  {
    assert ([n] + list)[1..] == list;
  }

  // ---------------------------------------------------------------------------
  // addNotification

  /** `addNotification(s)` at `nowMs` (ISO text `nowIso`): a new entry with
      `id` the decimal time, `read` false and `timestamp` the current time,
      each overridden by what the caller supplies, put in front of the
      list. */
  function Add(list: seq<Item>, s: Supplied, nowMs: nat, nowIso: string): (r: seq<Item>)
    ensures |r| == |list| + 1 && r[1..] == list
    ensures r[0].id == (if s.id.Some? then s.id else Some(Text.Decimal(nowMs)))
    ensures r[0].read <==> s.read == Some(true)
    ensures r[0].timestamp == (if s.timestamp.Some? then s.timestamp else Some(nowIso))
    ensures r[0].kind == s.kind && r[0].action == s.action && r[0].link == s.link && r[0].mongoId.None?
    ensures r[0].appointmentId == s.appointmentId && r[0].paymentId == s.paymentId
    ensures r[0].prescriptionId == s.prescriptionId && r[0].status == s.status
  {
    var n := Item(None, Some(s.id.GetOr(Text.Decimal(nowMs))), s.kind, s.action, s.link,
                  s.read.GetOr(false), None, Some(s.timestamp.GetOr(nowIso)), None,
                  s.appointmentId, s.paymentId, s.prescriptionId, s.status);
    [n] + list
  }

  /** Adding an entry raises the unread count by one, unless the caller
      supplied `read: true`. */
  lemma AddCountsUnread(list: seq<Item>, s: Supplied, nowMs: nat, nowIso: string)
    ensures UnreadCount(Add(list, s, nowMs, nowIso))
         == UnreadCount(list) + (if s.read == Some(true) then 0 else 1)
  {
    var r := Add(list, s, nowMs, nowIso);
    assert r == [r[0]] + list;
    UnreadCountCons(r[0], list);
  }

  /** Entries added in the same millisecond without an `id` of their own get
      the same `id`, so marking one of them read marks the other too. */
  lemma SameMillisecondIds(list: seq<Item>, s1: Supplied, s2: Supplied, nowMs: nat, nowIso: string)
    requires s1.id.None? && s2.id.None?
    ensures var r := Add(Add(list, s1, nowMs, nowIso), s2, nowMs, nowIso);
      && r[0].id == r[1].id == Some(Text.Decimal(nowMs))
      && var m := MarkOne(r, r[0].id, nowIso).list;
      m[0].read && m[1].read
  {
    var r := Add(Add(list, s1, nowMs, nowIso), s2, nowMs, nowIso);
    assert r[1] == Add(list, s1, nowMs, nowIso)[0];
    assert Filled(r[0].id);
    assert Matches(r[1], r[0].id.value);
  }

  // ---------------------------------------------------------------------------
  // markAllAsRead

  /** One entry after `markAllAsRead`: an unread one is read at `nowIso`, a
      read one is kept as it is. */
  function ReadAll(n: Item, nowIso: string): Item {
    if n.read then n else n.(read := true, readAt := Some(nowIso))
  }

  /** The optimistic update of `markAllAsRead`: every entry is read
      afterwards; those already read keep their `readAt`, and the others
      change in nothing but `read` and `readAt`. */
  function MarkAll(list: seq<Item>, nowIso: string): (r: seq<Item>)
    ensures |r| == |list|
    ensures forall i :: 0 <= i < |r| ==> r[i].read
    ensures forall i :: 0 <= i < |list| && list[i].read ==> r[i] == list[i]
    ensures forall i :: 0 <= i < |list| && !list[i].read ==>
      r[i].readAt == Some(nowIso) && r[i].(read := false, readAt := list[i].readAt) == list[i]
  {
    if |list| == 0 then []
    else [ReadAll(list[0], nowIso)] + MarkAll(list[1..], nowIso)
  }

  /** After marking all read nothing is unread, and marking all again
      changes nothing. */
  lemma MarkAllLaws(list: seq<Item>, nowIso: string, laterIso: string)
    ensures UnreadCount(MarkAll(list, nowIso)) == 0
    ensures MarkAll(MarkAll(list, nowIso), laterIso) == MarkAll(list, nowIso)
  {
  }

  // ---------------------------------------------------------------------------
  // markAsRead

  /** `n._id === id || n.id === id`. */
  predicate Matches(n: Item, id: string) {
    n.mongoId == Some(id) || n.id == Some(id)
  }

  /** One entry after `markAsRead(id)`. */
  function ReadOne(n: Item, id: string, nowIso: string): Item {
    if Matches(n, id) then n.(read := true, readAt := Some(nowIso)) else n
  }

  /** The list after `markAsRead`, and the id sent to the server, if any. */
  datatype MarkOutcome = MarkOutcome(list: seq<Item>, request: Option<string>)

  /** `markAsRead(id)`: a missing or empty id changes nothing and sends
      nothing. Otherwise every entry whose `_id` or `id` is `id` is marked
      read at `nowIso` (whether or not it was read before), the others are
      kept, in the same order, and `id` goes to the server. */
  function MarkOne(list: seq<Item>, id: Option<string>, nowIso: string): (o: MarkOutcome)
    ensures !Filled(id) ==> o.list == list && o.request.None?
    ensures Filled(id) ==> o.request == id
    ensures |o.list| == |list|
    ensures Filled(id) ==> forall i :: 0 <= i < |list| && Matches(list[i], id.value) ==>
      o.list[i].read && o.list[i].readAt == Some(nowIso)
      && o.list[i].(read := list[i].read, readAt := list[i].readAt) == list[i]
    ensures Filled(id) ==> forall i :: 0 <= i < |list| && !Matches(list[i], id.value) ==> o.list[i] == list[i]
  {
    if !Filled(id) then MarkOutcome(list, None)
    else MarkOutcome(ReadMatching(list, id.value, nowIso), id)
  }

  /** `list.map(n => ReadOne(n, id))`. */
  function ReadMatching(list: seq<Item>, id: string, nowIso: string): (r: seq<Item>)
    ensures |r| == |list|
    ensures forall i :: 0 <= i < |list| ==> r[i] == ReadOne(list[i], id, nowIso)
  {
    if |list| == 0 then [] else [ReadOne(list[0], id, nowIso)] + ReadMatching(list[1..], id, nowIso)
  }

  /** Marking one entry read lowers the unread count by exactly the number of
      unread entries that match, so it never raises it. */
  lemma {:induction false} MarkOneCount(list: seq<Item>, id: string, nowIso: string)
    ensures UnreadCount(ReadMatching(list, id, nowIso))
         == UnreadCount(list) - Seqs.Count(list, (n: Item) => Unread(n) && Matches(n, id))
    ensures UnreadCount(ReadMatching(list, id, nowIso)) <= UnreadCount(list)
  {
    if |list| > 0 {
      MarkOneCount(list[1..], id, nowIso);
      var r := ReadMatching(list, id, nowIso);
      assert r == [r[0]] + ReadMatching(list[1..], id, nowIso);
      UnreadCountCons(r[0], ReadMatching(list[1..], id, nowIso));
      assert list == [list[0]] + list[1..];
      UnreadCountCons(list[0], list[1..]);
    }
  }

  // ---------------------------------------------------------------------------
  // Fetching

  /** `minRefreshInterval`, in milliseconds. */
  const MinRefreshInterval: int := 5000

  /** The provider's state: the signed-in user, the list, the loading flag,
      whether a fetch is in flight (`fetchingRef`), and when the last fetch
      succeeded (`lastFetchedRef`). */
  datatype Store = Store(user: Option<string>, list: seq<Item>, loading: bool, fetching: bool, lastFetched: int)

  /** `fetchNotifications(force)` goes to the server at `now` exactly when
      somebody is signed in, no fetch is in flight, and the fetch is forced
      or at least 5000 ms have passed since the last successful one. */
  predicate FetchStarts(st: Store, force: bool, now: int) {
    && st.user.Some?
    && !st.fetching
    && (force || now - st.lastFetched >= MinRefreshInterval)
  }

  /** The synchronous part of `fetchNotifications`: a fetch that starts sets
      the in-flight and loading flags; a refused one changes nothing. */
  function BeginFetch(st: Store, force: bool, now: int): (r: Store)
    ensures !FetchStarts(st, force, now) ==> r == st
    ensures FetchStarts(st, force, now) ==> r == st.(fetching := true, loading := true)
  {
    if FetchStarts(st, force, now) then st.(fetching := true, loading := true) else st
  }

  /** The end of a fetch at `now`: a response (`Some`) replaces the list and
      records the time; a failure (`None`) keeps the list and the time.
      Either way the flags are cleared. */
  function EndFetch(st: Store, response: Option<seq<Item>>, now: int): (r: Store)
    ensures !r.fetching && !r.loading && r.user == st.user
    ensures response.Some? ==> r.list == response.value && r.lastFetched == now
    ensures response.None? ==> r.list == st.list && r.lastFetched == st.lastFetched
  {
    match response
    case Some(list) => st.(list := list, lastFetched := now, loading := false, fetching := false)
    case None => st.(loading := false, fetching := false)
  }

  /** A change of user: the list is emptied, the rate limit reset, and a
      forced fetch is attempted for the new user. */
  function UserChanged(st: Store, user: Option<string>, now: int): (r: Store)
    ensures r.list == [] && r.lastFetched == 0 && r.user == user && r.loading
    ensures r.fetching <==> st.fetching || user.Some?
  {
    BeginFetch(st.(user := user, list := [], loading := true, lastFetched := 0), true, now)
  }

  /** The `clearNotifications` window event (sign-out). */
  function ClearedByEvent(st: Store): (r: Store)
    ensures r.list == [] && !r.loading && r.lastFetched == 0
    ensures r.user == st.user && r.fetching == st.fetching
  {
    st.(list := [], loading := false, lastFetched := 0)
  }

  /** `clearNotifications()`. */
  function Clear(st: Store): (r: Store)
    ensures r.list == [] && r.(list := st.list) == st
  {
    st.(list := [])
  }

  /** After clearing nothing is unread, clearing again changes nothing, and
      the sign-out event is clearing that also resets the loading flag and
      the rate limit. */
  lemma ClearLaws(st: Store)
    ensures UnreadCount(Clear(st).list) == 0
    ensures Clear(Clear(st)) == Clear(st)
    ensures ClearedByEvent(st) == Clear(st).(loading := false, lastFetched := 0)
  {
  }

  /** Two fetches that were not forced start at least 5000 ms apart when the
      first one succeeded. */
  lemma FetchesAreSpaced(st: Store, t1: int, response: seq<Item>, t2: int, t3: int)
    requires FetchStarts(st, false, t1)
    requires FetchStarts(EndFetch(BeginFetch(st, false, t1), Some(response), t2), false, t3)
    ensures t3 - t2 >= MinRefreshInterval
  {
  }

  /** When the server refuses `markAllAsRead`, the revert is a fetch that is
      not forced; within 5000 ms of the last successful fetch it does not
      start, so the list keeps showing everything read. */
  lemma FailedMarkAllIsNotReverted(st: Store, nowIso: string, now: int)
    requires st.user.Some? && !st.fetching
    requires now - st.lastFetched < MinRefreshInterval
    ensures var optimistic := st.(list := MarkAll(st.list, nowIso));
      && BeginFetch(optimistic, false, now) == optimistic
      && UnreadCount(BeginFetch(optimistic, false, now).list) == 0
  {
    MarkAllLaws(st.list, nowIso, nowIso);
  }

  /** The in-flight flag is not reset when the user changes, so a change of
      user while a fetch is in flight empties the list without fetching for
      the new user, and the old fetch's response then fills it. */
  lemma UserChangeDuringFetch(st: Store, user: string, now: int, oldResponse: seq<Item>, later: int)
    requires st.fetching
    ensures UserChanged(st, Some(user), now) == st.(user := Some(user), list := [], loading := true, lastFetched := 0)
    ensures EndFetch(UserChanged(st, Some(user), now), Some(oldResponse), later).list == oldResponse
  {
  }
}
