/** The bell in the navigation bar: its unread badge, the throttle on
    fetching when it opens, and the id a click marks read.
 */
module NotificationBell {

  import opened Wrappers
  import opened Text
  import Js
  import NotificationContext

  /** The badge over the bell for `unread` unread entries: none at zero, the
      number itself up to 99, `99+` above. The badge is at most three
      characters, and a number shown reads back as the count. */
  function Badge(unread: nat): (b: Option<string>)
    ensures b.None? <==> unread == 0
    ensures b.Some? ==> 1 <= |b.value| <= 3
    ensures unread > 99 ==> b == Some("99+")
    ensures 0 < unread <= 99 ==>
      (&& b.Some?
       && (forall i :: 0 <= i < |b.value| ==> '0' <= b.value[i] <= '9')
       && DecimalValue(b.value) == unread)
  {
    if unread == 0 then None
    else if unread > 99 then Some("99+")
    else
      DecimalRoundTrip(unread);
      DecimalShort(unread);
      Some(Decimal(unread))
  }

  /** A number below 100 has at most two digits. */
  lemma DecimalShort(n: nat)
    requires n < 100
    ensures |Decimal(n)| <= 2
  {
    if n >= 10 {
      assert Decimal(n) == Decimal(n / 10) + [Digit(n % 10)];
    }
  }

  /** The badge of the bell's own count, which is the provider's unread count. */
  function BellBadge(list: seq<NotificationContext.Item>): (b: Option<string>)
    ensures b.None? <==> forall i :: 0 <= i < |list| ==> list[i].read
  {
    Badge(NotificationContext.UnreadCount(list))
  }

  /** How long the bell waits, in milliseconds, before fetching again when
      it is opened. */
  const OpenRefetchInterval: int := 10000

  /** One run at `now` of the effect that fetches while the panel is open.
      It runs when the panel opens, and again on every render while it
      stays open, because the fetch function it depends on is a new value
      on each render of the provider. It asks for a (not forced) fetch when
      more than 10000 ms have passed since the last time it asked, and then
      remembers `now`. */
  datatype Open = Open(fetch: bool, lastAsked: int)

  function OpenAt(lastAsked: int, now: int): (o: Open)
    ensures o.fetch <==> now - lastAsked > OpenRefetchInterval
    ensures o.fetch ==> o.lastAsked == now
    ensures !o.fetch ==> o.lastAsked == lastAsked
  {
    if now - lastAsked > OpenRefetchInterval then Open(true, now) else Open(false, lastAsked)
  }

  /** The fetches a sequence of effect runs asks for, at the given times,
      from a starting mark. */
  function OpenAll(lastAsked: int, times: seq<int>): (r: seq<int>)
    decreases |times|
  {
    if |times| == 0 then []
    else
      var o := OpenAt(lastAsked, times[0]);
      (if o.fetch then [times[0]] else []) + OpenAll(o.lastAsked, times[1..])
  }

  /** Every fetch an effect run asks for comes more than 10000 ms after the
      previous one (and after the starting mark), however often the effect
      runs while the panel is open. */
  lemma {:induction false} OpenFetchesAreSpaced(lastAsked: int, times: seq<int>)
    ensures var r := OpenAll(lastAsked, times);
      && (|r| > 0 ==> r[0] - lastAsked > OpenRefetchInterval)
      && forall i :: 0 < i < |r| ==> r[i] - r[i - 1] > OpenRefetchInterval
    decreases |times|
  {
    if |times| > 0 {
      var o := OpenAt(lastAsked, times[0]);
      OpenFetchesAreSpaced(o.lastAsked, times[1..]);
      var rest := OpenAll(o.lastAsked, times[1..]);
      if o.fetch {
        assert OpenAll(lastAsked, times) == [times[0]] + rest;
      } else {
        assert OpenAll(lastAsked, times) == rest;
      }
    }
  }

  /** `notification._id || notification.id`: the id a click marks read. */
  function ClickId(n: NotificationContext.Item): (id: Option<string>)
    ensures Js.Filled(n.mongoId) ==> id == n.mongoId
    ensures !Js.Filled(n.mongoId) ==> id == n.id
  {
    if Js.Filled(n.mongoId) then n.mongoId else n.id
  }

  /** A click on an entry of the list that has a usable id marks that entry
      read, whichever of its two ids the click used; an entry with neither
      id is skipped and nothing is sent. */
  lemma ClickMarksClicked(list: seq<NotificationContext.Item>, k: nat, nowIso: string)
    requires k < |list|
    ensures var o := NotificationContext.MarkOne(list, ClickId(list[k]), nowIso);
      && (Js.Filled(ClickId(list[k])) ==> o.list[k].read && o.request == ClickId(list[k]))
      && (!Js.Filled(ClickId(list[k])) ==> o.list == list && o.request.None?)
  {
    if Js.Filled(ClickId(list[k])) {
      assert NotificationContext.Matches(list[k], ClickId(list[k]).value);
    }
  }
}
