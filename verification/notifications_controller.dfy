/** The notification endpoints: listing a user's notifications, marking one
    read, and marking all read. All three address notifications through the
    same rule: a notification is the caller's when it names them, or when it
    names nobody and is addressed to their role or to everyone.
 */
module NotificationsController {

  import opened Wrappers
  import opened NotificationModel
  import Entities
  import Seqs

  /** The Mongo query `$or: [{ recipientUserId: userId }, { recipientUserId:
      null, recipientRole: role }, { recipientUserId: null, recipientRole:
      'ALL' }]`. */
  predicate QueryMatches(n: Notification, caller: Entities.Caller) {
    || n.recipientUserId == Some(caller.id)
    || (n.recipientUserId.None? && n.recipientRole.Name() == caller.role.Name())
    || (n.recipientUserId.None? && n.recipientRole.Name() == "ALL")
  }

  /** The check `markAsRead` runs in code: a recipient that equals the
      caller, or no recipient and the caller's role or `ALL`. */
  predicate Authorized(n: Notification, caller: Entities.Caller) {
    || (n.recipientUserId.Some? && n.recipientUserId.value == caller.id)
    || (!n.recipientUserId.Some? && n.recipientRole == AudienceOf(caller.role))
    || (!n.recipientUserId.Some? && n.recipientRole == ToAll)
  }

  /** The listing query and the authorisation check pick out the same
      notifications. */
  lemma QueryAgreesWithCheck(n: Notification, caller: Entities.Caller)
    ensures QueryMatches(n, caller) <==> Authorized(n, caller)
  {
    assert n.recipientRole.Name() == "ALL" <==> n.recipientRole == ToAll;
    assert n.recipientRole.Name() == caller.role.Name() <==> n.recipientRole == AudienceOf(caller.role);
  }

  /** A notification addressed to a single user is that user's alone. */
  lemma PersonalIsPrivate(n: Notification, a: Entities.Caller, b: Entities.Caller)
    requires n.recipientUserId == Some(a.id) && b.id != a.id
    ensures Authorized(n, a) && !Authorized(n, b)
  {
  }

  /** The visibility rule as a filter. */
  function VisibleTo(caller: Entities.Caller): Notification -> bool {
    (n: Notification) => Authorized(n, caller)
  }

  /** The sort key `createdAt`. */
  function CreatedAt(n: Notification): int {
    n.createdAt
  }

  /** How many notifications a listing returns at most. */
  const ListLimit: nat := 30

  /** `getMyNotifications`: the caller's notifications, newest first, at
      most 30 of them, each stored one at most as often as it is stored.
      Any of the caller's notifications left out is no newer than every one
      shown. */
  function List(store: seq<Notification>, caller: Entities.Caller): (r: seq<Notification>)
    ensures |r| <= ListLimit
    ensures var total := Seqs.Count(store, VisibleTo(caller));
      |r| == if total < ListLimit then total else ListLimit
    ensures forall i :: 0 <= i < |r| ==> Authorized(r[i], caller) && r[i] in store
    ensures multiset(r) <= multiset(store)
    ensures Seqs.SortedDesc(r, CreatedAt)
    ensures forall x :: x in store && Authorized(x, caller) && x !in r ==>
      forall i :: 0 <= i < |r| ==> x.createdAt <= r[i].createdAt
  {
    Seqs.TopOfSortedFilter(store, VisibleTo(caller), CreatedAt, ListLimit);
    Seqs.TopWithin(store, VisibleTo(caller), CreatedAt, ListLimit);
    Seqs.Take(Seqs.SortedFilter(store, VisibleTo(caller), CreatedAt), ListLimit)
  }

  /** A draft addressed to the caller: naming them, or naming nobody and
      addressed to their role or to everyone (the default). */
  predicate AddressedTo(d: Draft, caller: Entities.Caller) {
    || d.recipientUserId == Some(caller.id)
    || (d.recipientUserId.None? && d.recipientRole in {None, Some(AudienceOf(caller.role)), Some(ToAll)})
  }

  /** A stored notification is the caller's exactly when its draft was
      addressed to them. */
  lemma CreatedVisibleIff(d: Draft, id: Id, now: int, caller: Entities.Caller)
    requires Create(d, id, now, true).Some?
    ensures Authorized(Create(d, id, now, true).value, caller) <==> AddressedTo(d, caller)
  {
  }

  /** A notification of the caller's that is strictly newer than every
      other one they can see is in their listing. */
  lemma ListShowsNewest(store: seq<Notification>, n: Notification, caller: Entities.Caller)
    requires Authorized(n, caller)
    requires forall i :: 0 <= i < |store| && Authorized(store[i], caller) ==> store[i].createdAt < n.createdAt
    ensures n in List(store + [n], caller)
  {
    var all := store + [n];
    var r := List(all, caller);
    assert Seqs.Count(all, VisibleTo(caller)) > 0 by {
      assert all[|store|] == n && VisibleTo(caller)(all[|store|]);
    }
    if r[0] != n {
      assert r[0] in store by { assert r[0] in all; }
      assert r[0].createdAt < n.createdAt;
    }
  }

  /** The caller may mark read a notification of theirs appended under an
      id no stored notification has. */
  lemma AppendedIsMarkable(store: seq<Notification>, n: Notification, caller: Entities.Caller, t: int)
    requires Authorized(n, caller)
    requires forall i :: 0 <= i < |store| ==> store[i].id != n.id
    ensures MarkAsRead(store + [n], caller, Some(n.id), t).Ok?
  {
    var all := store + [n];
    var k := Find(all, n.id);
    assert k == Some(|store|) by {
      assert k.Some? by { assert all[|store|].id == n.id; }
      assert forall i :: 0 <= i < |store| ==> all[i].id != n.id;
    }
  }

  /** A notification `createNotification` stores for the caller, under a
      fresh id and newer than everything they could already see, is in
      their listing, and they may mark it read. */
  lemma CreatedReachesAddressee(store: seq<Notification>, d: Draft, id: Id, now: int, caller: Entities.Caller, t: int)
    requires d.title != "" && d.message != ""
    requires AddressedTo(d, caller)
    requires forall i :: 0 <= i < |store| ==> store[i].id != id
    requires forall i :: 0 <= i < |store| && Authorized(store[i], caller) ==> store[i].createdAt < now
    ensures var n := Create(d, id, now, true).value;
      && n in List(store + [n], caller)
      && MarkAsRead(store + [n], caller, Some(id), t).Ok?
  {
    var n := Create(d, id, now, true).value;
    CreatedVisibleIff(d, id, now, caller);
    ListShowsNewest(store, n, caller);
    AppendedIsMarkable(store, n, caller, t);
  }

  /** Notification ids are distinct. */
  predicate DistinctIds(store: seq<Notification>) {
    forall i, j :: 0 <= i < j < |store| ==> store[i].id != store[j].id
  }

  /** The position of the notification with id `id`. */
  function Find(store: seq<Notification>, id: Id): (k: Option<nat>)
    ensures k.Some? ==> k.value < |store| && store[k.value].id == id
    ensures k.None? ==> forall i :: 0 <= i < |store| ==> store[i].id != id
  {
    var k := Seqs.IndexWhere(store, (n: Notification) => n.id == id);
    if k < |store| then Some(k) else None
  }

  /** A notification after it is marked read at `now`. */
  function MarkRead(n: Notification, now: int): Notification {
    n.(read := true, readAt := Some(now))
  }

  /** `markAsRead` of notification `idParam` at time `now` (`None` is a
      malformed id, which the store rejects with an error, so 500). A
      missing notification is 404, one that is not the caller's 403;
      otherwise it is marked read with the current time, whoever else it
      is addressed to. */
  function MarkAsRead(store: seq<Notification>, caller: Entities.Caller, idParam: Option<Id>, now: int)
    : (r: Result<seq<Notification>>)
    ensures idParam.None? ==> r == Err(InternalError)
    ensures idParam.Some? && Find(store, idParam.value).None? ==> r == Err(NotFound)
    ensures (idParam.Some? && Find(store, idParam.value).Some?
             && !Authorized(store[Find(store, idParam.value).value], caller)) ==> r == Err(Forbidden)
    ensures r.Ok? ==> idParam.Some? && Find(store, idParam.value).Some?
    ensures r.Ok? ==>
      var k := Find(store, idParam.value).value;
      && Authorized(store[k], caller)
      && |r.value| == |store|
      && r.value[k].read && r.value[k].readAt == Some(now)
      && r.value[k].(read := store[k].read, readAt := store[k].readAt) == store[k]
      && (forall i :: 0 <= i < |store| && i != k ==> r.value[i] == store[i])
  {
    if idParam.None? then Err(InternalError)
    else
      var k := Find(store, idParam.value);
      if k.None? then Err(NotFound)
      else if !Authorized(store[k.value], caller) then Err(Forbidden)
      else Ok(store[k.value := MarkRead(store[k.value], now)])
  }

  /** Marking the same notification read again succeeds and keeps it read;
      only its `readAt` moves to the later time. */
  lemma MarkAsReadAgain(store: seq<Notification>, caller: Entities.Caller, id: Id, t1: int, t2: int)
    requires MarkAsRead(store, caller, Some(id), t1).Ok?
    ensures var s1 := MarkAsRead(store, caller, Some(id), t1).value;
      var r2 := MarkAsRead(s1, caller, Some(id), t2);
      && r2.Ok?
      && var k := Find(store, id).value;
      && r2.value[k].read && r2.value[k].readAt == Some(t2)
      && r2.value == s1[k := s1[k].(readAt := Some(t2))]
  {
    var k := Find(store, id).value;
    var s1 := MarkAsRead(store, caller, Some(id), t1).value;
    var k1 := Seqs.IndexWhere(s1, (n: Notification) => n.id == id);
    assert k1 == k by {
      assert forall j :: 0 <= j < |s1| ==> s1[j].id == store[j].id;
    }
  }

  /** The read flag is kept once per notification: when one recipient of a
      broadcast marks it read, it is read for everybody it reaches. */
  lemma BroadcastReadForAll(store: seq<Notification>, caller: Entities.Caller, id: Id, now: int,
                            other: Entities.Caller)
    requires MarkAsRead(store, caller, Some(id), now).Ok?
    requires store[Find(store, id).value].recipientUserId.None?
    requires store[Find(store, id).value].recipientRole == ToAll
    ensures var s := MarkAsRead(store, caller, Some(id), now).value;
      var k := Find(store, id).value;
      Authorized(s[k], other) && s[k].read
  {
  }

  /** A notification the caller may mark read in bulk: theirs and unread. */
  predicate MineUnread(n: Notification, caller: Entities.Caller) {
    Authorized(n, caller) && !n.read
  }

  /** `MineUnread` as a filter. */
  function VisibleUnread(caller: Entities.Caller): Notification -> bool {
    (n: Notification) => MineUnread(n, caller)
  }

  /** `markAllAsRead` at time `now`: every notification of the caller's that
      is unread is marked read; every other notification is left as it is.
      The count is the number of notifications modified. */
  method MarkAllAsRead(store: seq<Notification>, caller: Entities.Caller, now: int)
    returns (r: seq<Notification>, modifiedCount: nat)
    ensures |r| == |store|
    ensures forall i :: 0 <= i < |store| && MineUnread(store[i], caller) ==> r[i] == MarkRead(store[i], now)
    ensures forall i :: 0 <= i < |store| && !MineUnread(store[i], caller) ==> r[i] == store[i]
    ensures modifiedCount == Seqs.Count(store, VisibleUnread(caller))
  {
    r, modifiedCount := Seqs.UpdateWhere(store, VisibleUnread(caller), (n: Notification) => MarkRead(n, now));
  }

  /** After marking all read the caller has nothing unread, and marking all
      again modifies nothing. */
  lemma {:induction false} NothingUnreadAfterMarkAll(store: seq<Notification>, r: seq<Notification>,
                                                     caller: Entities.Caller, now: int)
    requires |r| == |store|
    requires forall i :: 0 <= i < |store| && MineUnread(store[i], caller) ==> r[i] == MarkRead(store[i], now)
    requires forall i :: 0 <= i < |store| && !MineUnread(store[i], caller) ==> r[i] == store[i]
    ensures forall i :: 0 <= i < |r| ==> !MineUnread(r[i], caller)
    ensures Seqs.Count(r, VisibleUnread(caller)) == 0
  {
    forall i | 0 <= i < |r|
      ensures !MineUnread(r[i], caller)
    {
      if MineUnread(store[i], caller) {
        assert r[i].read;
      }
    }
    assert forall i :: 0 <= i < |r| ==> !VisibleUnread(caller)(r[i]);
  }
}
