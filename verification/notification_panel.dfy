/** The notification dropdown: how old an entry reads ("5 min ago"), the icon
    and label its type gets, and where clicking it may navigate.
 */
module NotificationPanel {

  import opened Wrappers
  import opened Js
  import opened Text
  import NotificationContext

  // ---------------------------------------------------------------------------
  // getTimeAgo

  /** The age text of an entry, before it is spelled out. */
  datatype Age = Unknown | JustNow | Seconds(n: nat) | Minutes(n: nat) | Hours(n: nat) | Days(n: nat)

  /** `Math.floor(ms / 1000)`: Dafny's division rounds down for a positive divisor. */
  function ElapsedSeconds(nowMs: int, dateMs: int): (s: int)
    ensures s * 1000 <= nowMs - dateMs < (s + 1) * 1000
  {
    (nowMs - dateMs) / 1000
  }

  /** The bucket for `s` elapsed seconds: each unit is used below the next
      one, and the count in it is rounded down. */
  function Bucket(s: int): (a: Age)
    ensures s < 0 <==> a == JustNow
    ensures a.Seconds? ==> 0 <= s < 60 && a.n == s
    ensures a.Minutes? ==> 60 <= s < 3600 && 1 <= a.n < 60 && a.n * 60 <= s < (a.n + 1) * 60
    ensures a.Hours? ==> 3600 <= s < 86400 && 1 <= a.n < 24 && a.n * 3600 <= s < (a.n + 1) * 3600
    ensures a.Days? ==> 86400 <= s && 1 <= a.n && a.n * 86400 <= s < (a.n + 1) * 86400
    ensures !a.Unknown?
  {
    if s < 0 then JustNow
    else if s < 60 then Seconds(s)
    else if s < 3600 then Minutes(s / 60)
    else if s < 86400 then Hours(s / 3600)
    else Days(s / 86400)
  }

  /** `getTimeAgo(stamp)` at `nowMs`, before formatting: a missing or empty
      stamp, or one `parseDate` cannot read (`None`, an invalid `Date`), is
      unknown; otherwise the elapsed whole seconds are bucketed. */
  function AgeOf(stamp: Option<string>, nowMs: int, parseDate: string -> Option<int>): (a: Age)
    ensures !Filled(stamp) ==> a == Unknown
    ensures Filled(stamp) && parseDate(stamp.value).None? ==> a == Unknown
    ensures Filled(stamp) && parseDate(stamp.value).Some? ==>
      a == Bucket(ElapsedSeconds(nowMs, parseDate(stamp.value).value))
  {
    if !Filled(stamp) then Unknown
    else match parseDate(stamp.value)
      case None => Unknown
      case Some(ms) => Bucket(ElapsedSeconds(nowMs, ms))
  }

  /** The text of an age. */
  function AgeText(a: Age): string {
    match a
    case Unknown => "Unknown time"
    case JustNow => "Just now"
    case Seconds(n) => Decimal(n) + " sec ago"
    case Minutes(n) => Decimal(n) + " min ago"
    case Hours(n) => Decimal(n) + " hr ago"
    case Days(n) => Decimal(n) + " day ago"
  }

  /** `getTimeAgo(createdAt || timestamp)` for an entry. */
  function TimeAgo(n: NotificationContext.Item, nowMs: int, parseDate: string -> Option<int>): string {
    AgeText(AgeOf(if Filled(n.createdAt) then n.createdAt else n.timestamp, nowMs, parseDate))
  }

  /** "Just now" is shown exactly for stamps in the future; a stamp up to a
      minute old shows its age in seconds, and the number shown is read back
      from the text. */
  lemma AgeBuckets(stamp: string, nowMs: int, parseDate: string -> Option<int>, ms: int)
    requires stamp != "" && parseDate(stamp) == Some(ms)
    ensures AgeOf(Some(stamp), nowMs, parseDate) == JustNow <==> nowMs < ms
    ensures ms <= nowMs < ms + 60000 ==>
      AgeOf(Some(stamp), nowMs, parseDate) == Seconds((nowMs - ms) / 1000)
  {
  }

  /** The age never goes back to a smaller unit as time passes. */
  lemma {:induction false} AgeMonotone(s: int, t: int)
    requires s <= t
    ensures Rank(Bucket(s)) <= Rank(Bucket(t))
  {
  }

  /** The order of the units. */
  function Rank(a: Age): nat {
    match a
    case Unknown => 0
    case JustNow => 1
    case Seconds(_) => 2
    case Minutes(_) => 3
    case Hours(_) => 4
    case Days(_) => 5
  }

  /** Two different ages never read the same. */
  lemma AgeTextInjective(a: Age, b: Age)
    requires !a.Unknown? && !a.JustNow? && !b.Unknown? && !b.JustNow?
    ensures AgeText(a) == AgeText(b) ==> a == b
  {
    if AgeText(a) == AgeText(b) {
      DigitsThenSpace(a.n, b.n, AgeText(a)[|Decimal(a.n)|..], AgeText(b)[|Decimal(b.n)|..]);
    }
  }

  /** A number followed by a space can be read back: the digits end where
      the space starts. */
  lemma DigitsThenSpace(x: nat, y: nat, t: string, u: string)
    requires |t| > 0 && |u| > 0 && t[0] == ' ' && u[0] == ' '
    requires Decimal(x) + t == Decimal(y) + u
    ensures x == y && t == u
  {
    var dx, dy := Decimal(x), Decimal(y);
    var k := if |dx| < |dy| then |dx| else |dy|;
    assert (dx + t)[k] == (dy + u)[k];
    assert |dx| == |dy|;
    assert dx == (dx + t)[..|dx|];
    assert dy == (dy + u)[..|dy|];
    DecimalInjective(x, y);
    assert t == (dx + t)[|dx|..];
    assert u == (dy + u)[|dy|..];
  }

  // ---------------------------------------------------------------------------
  // getIcon / getTypeLabel

  /** The icons an entry may get. */
  datatype Icon = Check | Cross | Warning | Calendar | Card | Pill | Speech | Bell {

    /** The glyph drawn. */
    function Glyph(): string {
      match this
      case Check => "\U{2705}"
      case Cross => "\U{274C}"
      case Warning => "\U{26A0}\U{FE0F}"
      case Calendar => "\U{1F4C5}"
      case Card => "\U{1F4B3}"
      case Pill => "\U{1F48A}"
      case Speech => "\U{1F4AC}"
      case Bell => "\U{1F514}"
    }
  }

  /** The types the panel knows, by their spellings: the upper-case one the
      server sends, and for all but `VERIFICATION` the lower-case one the
      browser's own entries use. */
  datatype Kind = Appointment | Payment | Prescription | Chat | Verification | Other

  /** Which known type a `type` string spells. */
  function KindOf(kind: Option<string>): (k: Kind)
    ensures k == Verification <==> kind == Some("VERIFICATION")
  {
    match kind
    case Some("APPOINTMENT") => Appointment
    case Some("appointment") => Appointment
    case Some("PAYMENT") => Payment
    case Some("payment") => Payment
    case Some("PRESCRIPTION") => Prescription
    case Some("prescription") => Prescription
    case Some("CHAT") => Chat
    case Some("chat") => Chat
    case Some("VERIFICATION") => Verification
    case _ => Other
  }

  /** `getIcon(type, metadata)`: a verification with an action gets the
      action's icon (an unknown action a check mark); otherwise the type's. */
  function IconOf(kind: Option<string>, action: Option<string>): (i: Icon)
    ensures KindOf(kind) == Other ==> i == Bell
    ensures KindOf(kind) == Verification && !Filled(action) ==> i == Check
    ensures action == Some("SUSPENDED") && kind == Some("VERIFICATION") ==> i == Cross
    ensures KindOf(kind) != Verification ==> i == TypeIcon(KindOf(kind))
  {
    if kind == Some("VERIFICATION") && Filled(action) then
      match action.value
      case "VERIFIED" => Check
      case "SUSPENDED" => Cross
      case "UNSUSPENDED" => Warning
      case "REJECTED" => Warning
      case _ => Check
    else TypeIcon(KindOf(kind))
  }

  /** The icon of a type alone. */
  function TypeIcon(k: Kind): Icon {
    match k
    case Appointment => Calendar
    case Payment => Card
    case Prescription => Pill
    case Chat => Speech
    case Verification => Check
    case Other => Bell
  }

  /** `getTypeLabel(type || 'default')`. */
  function Label(kind: Option<string>): (l: string)
    ensures KindOf(kind) == Other <==> l == "System"
  {
    match KindOf(kind)
    case Appointment => "Appointment"
    case Payment => "Payment"
    case Prescription => "Prescription"
    case Chat => "Chat"
    case Verification => "Verification"
    case Other => "System"
  }

  /** Both spellings of a type get the same icon and label, except
      `verification`, which the panel only knows in upper case. */
  lemma CaseAliases(upper: string, lower: string)
    requires (upper, lower) in {("APPOINTMENT", "appointment"), ("PAYMENT", "payment"),
                                ("PRESCRIPTION", "prescription"), ("CHAT", "chat")}
    ensures Label(Some(upper)) == Label(Some(lower)) != "System"
    ensures IconOf(Some(upper), None) == IconOf(Some(lower), None) != Bell
    ensures Label(Some("verification")) == "System" && IconOf(Some("verification"), None) == Bell
  {
  }

  // ---------------------------------------------------------------------------
  // handleNotificationClick

  /** The route prefixes a click may navigate to. */
  const KnownRoutes: seq<string> := ["/appointments", "/payments", "/prescriptions", "/doctors", "/profile"]

  /** The link guard: a string that is not blank, starts with `/` and starts
      with one of the known routes. */
  predicate Navigable(link: JsValue) {
    && Truthy(link)
    && link.Str?
    && !IsBlank(link.s)
    && StartsWith(link.s, "/")
    && exists i :: 0 <= i < |KnownRoutes| && StartsWith(link.s, KnownRoutes[i])
  }

  /** What a click does, in order: the click handler runs (the entry is
      marked read), then the browser navigates when the link passes the
      guard, then the panel closes. */
  datatype Click = Click(markRead: bool, navigateTo: Option<string>, close: bool)

  /** `handleNotificationClick(n)` with a click handler and a close handler
      given. */
  function HandleClick(n: NotificationContext.Item): (c: Click)
    ensures c.markRead && c.close
    ensures c.navigateTo.Some? <==> Navigable(n.link)
    ensures c.navigateTo.Some? ==> n.link == Str(c.navigateTo.value)
  {
    Click(true, if Navigable(n.link) then Some(n.link.s) else None, true)
  }

  /** Every known route starts with `/` and is not blank, so the guard is
      just "starts with a known route": the other three tests never decide. */
  lemma GuardIsRoutePrefix(link: string)
    ensures Navigable(Str(link)) <==> exists i :: 0 <= i < |KnownRoutes| && StartsWith(link, KnownRoutes[i])
  {
    if i :| 0 <= i < |KnownRoutes| && StartsWith(link, KnownRoutes[i]) {
      assert link[0] == KnownRoutes[i][0] == '/';
      assert StartsWith(link, "/");
      assert !IsSpace(link[0]);
      BlankIffAllSpace(link);
    }
  }

  /** An absolute URL is never followed, even one that names a known page. */
  lemma AbsoluteLinkIgnored()
    ensures !Navigable(Str("https://example.org/appointments"))
  {
    DiffersAt("https://example.org/appointments", "/", 0);
  }

  /** A path outside the known routes is never followed. */
  lemma UnknownRouteIgnored()
    ensures !Navigable(Str("/admin"))
  {
    var s := "/admin";
    assert !StartsWith(s, KnownRoutes[0]) by { assert |s| < |KnownRoutes[0]|; }
    DiffersAt(s, KnownRoutes[1], 1);
    DiffersAt(s, KnownRoutes[2], 1);
    DiffersAt(s, KnownRoutes[3], 1);
    DiffersAt(s, KnownRoutes[4], 1);
    OffRouteNotNavigable(s);
  }

  /** A string under none of the known routes fails the guard. */
  lemma OffRouteNotNavigable(s: string)
    requires forall i :: 0 <= i < |KnownRoutes| ==> !StartsWith(s, KnownRoutes[i])
    ensures !Navigable(Str(s))
  {
  }

  /** A path under a known route is followed. */
  lemma KnownRouteFollowed()
    ensures Navigable(Str("/appointments/42"))
  {
    GuardIsRoutePrefix("/appointments/42");
    assert StartsWith("/appointments/42", KnownRoutes[0]);
  }
}
