/** Notifications the browser makes up itself from the signed-in user's
    appointments, payments and prescriptions, every five minutes.

    Each check asks the server for a list, works out which notifications the
    list calls for (a confirmed or cancelled appointment, a successful or
    refunded payment, a prescription), and adds those it does not find in
    the notification list it holds. A notification is identified by a
    `Key`: its type plus the id and status it is about.
 */
module AutoNotifications {

  import opened Wrappers
  import Seqs
  import NotificationContext

  type Item = NotificationContext.Item

  // ---------------------------------------------------------------------------
  // What the server answers

  /** An appointment as the pages receive it. The populated doctor and
      patient are given by name, `None` when the reference came back null
      (a deleted account). */
  datatype Appt = Appt(id: string, status: string, doctorName: Option<string>, patientName: Option<string>)

  /** A payment as the pages receive it. */
  datatype Payment = Payment(id: string, status: string)

  /** A prescription as the pages receive it, with the populated doctor's
      name, `None` when the reference came back null. */
  datatype Prescription = Prescription(id: string, doctorName: Option<string>)

  /** The answers the checks get: the patient's and the doctor's appointment
      lists, the payment of an appointment, and the patient's and the
      doctor's prescription lists. `None` is a request that failed (its
      error is caught and the check adds nothing); a payment lookup that
      fails, or finds no payment, is skipped. */
  datatype Feed = Feed(
    myAppointments: Option<seq<Appt>>,
    doctorAppointments: Option<seq<Appt>>,
    paymentOf: string -> Option<Payment>,
    myPrescriptions: Option<seq<Prescription>>,
    doctorPrescriptions: Option<seq<Prescription>>)

  /** No two appointments of a list share an id. */
  predicate DistinctAppts(appts: seq<Appt>) {
    forall i, j :: 0 <= i < j < |appts| ==> appts[i].id != appts[j].id
  }

  /** No two prescriptions of a list share an id. */
  predicate DistinctPrescriptions(ps: seq<Prescription>) {
    forall i, j :: 0 <= i < j < |ps| ==> ps[i].id != ps[j].id
  }

  /** Every list the server answers holds each `_id` once, as the store
      guarantees. */
  predicate DistinctIds(feed: Feed) {
    && (feed.myAppointments.Some? ==> DistinctAppts(feed.myAppointments.value))
    && (feed.doctorAppointments.Some? ==> DistinctAppts(feed.doctorAppointments.value))
    && (feed.myPrescriptions.Some? ==> DistinctPrescriptions(feed.myPrescriptions.value))
    && (feed.doctorPrescriptions.Some? ==> DistinctPrescriptions(feed.doctorPrescriptions.value))
  }

  // ---------------------------------------------------------------------------
  // Keys

  /** What a made-up notification is about. */
  datatype Key =
    | AppointmentKey(appointmentId: string, status: string)
    | PaymentKey(paymentId: string, status: string)
    | PrescriptionKey(prescriptionId: string)

  /** The dedupe test for one entry: `type`, id and (where there is one)
      status all match. */
  predicate KeyMatches(n: Item, k: Key) {
    match k
    case AppointmentKey(a, st) =>
      n.kind == Some("appointment") && n.appointmentId == Some(a) && n.status == Some(st)
    case PaymentKey(p, st) =>
      n.kind == Some("payment") && n.paymentId == Some(p) && n.status == Some(st)
    case PrescriptionKey(p) =>
      n.kind == Some("prescription") && n.prescriptionId == Some(p)
  }

  /** `notifications.find(...)` found something. */
  predicate HasKey(list: seq<Item>, k: Key) {
    exists i :: 0 <= i < |list| && KeyMatches(list[i], k)
  }

  /** `n` carries the dedupe fields of `k` and no others. */
  predicate Carries(n: Item, k: Key) {
    var s := SuppliedFor(k);
    && n.kind == s.kind && n.appointmentId == s.appointmentId && n.paymentId == s.paymentId
    && n.prescriptionId == s.prescriptionId && n.status == s.status
  }

  /** An entry carrying `k` matches `k` and no other key. */
  lemma CarriesOnly(n: Item, k: Key, k': Key)
    requires Carries(n, k)
    ensures KeyMatches(n, k)
    ensures KeyMatches(n, k') ==> k' == k
  {
  }

  /** The object passed to `addNotification` for a key. */
  function SuppliedFor(k: Key): NotificationContext.Supplied {
    match k
    case AppointmentKey(a, st) => NotificationContext.Keys("appointment", Some(a), None, None, Some(st))
    case PaymentKey(p, st) => NotificationContext.Keys("payment", None, Some(p), None, Some(st))
    case PrescriptionKey(p) => NotificationContext.Keys("prescription", None, None, Some(p), None)
  }

  // ---------------------------------------------------------------------------
  // What each check calls for

  /** The appointment check: one key per `CONFIRMED` appointment and one per
      `CANCELLED` one, and none for any other status. */
  function AppointmentKeys(appts: seq<Appt>): (r: seq<Key>)
    ensures forall k :: k in r <==>
      exists a :: a in appts && (|| (a.status == "CONFIRMED" && k == AppointmentKey(a.id, "confirmed"))
                                 || (a.status == "CANCELLED" && k == AppointmentKey(a.id, "cancelled")))
  {
    if |appts| == 0 then []
    else
      var a := appts[0];
      var rest := AppointmentKeys(appts[1..]);
      assert forall x :: x in appts <==> x == a || x in appts[1..] by {
        assert appts == [a] + appts[1..];
      }
      (if a.status == "CONFIRMED" then [AppointmentKey(a.id, "confirmed")] else [])
      + (if a.status == "CANCELLED" then [AppointmentKey(a.id, "cancelled")] else [])
      + rest
  }

  /** The payment check: for each appointment whose payment is found, one
      key for a `SUCCESS` payment and one for a `REFUNDED` one. */
  function PaymentKeys(appts: seq<Appt>, paymentOf: string -> Option<Payment>): (r: seq<Key>)
    ensures forall k :: k in r <==>
      exists a :: a in appts && paymentOf(a.id).Some? &&
        var p := paymentOf(a.id).value;
        (|| (p.status == "SUCCESS" && k == PaymentKey(p.id, "success"))
         || (p.status == "REFUNDED" && k == PaymentKey(p.id, "refunded")))
  {
    if |appts| == 0 then []
    else
      var a := appts[0];
      var rest := PaymentKeys(appts[1..], paymentOf);
      assert forall x :: x in appts <==> x == a || x in appts[1..] by {
        assert appts == [a] + appts[1..];
      }
      match paymentOf(a.id)
      case None => rest
      case Some(p) =>
        (if p.status == "SUCCESS" then [PaymentKey(p.id, "success")] else [])
        + (if p.status == "REFUNDED" then [PaymentKey(p.id, "refunded")] else [])
        + rest
  }

  /** The prescription check: one key per prescription. */
  function PrescriptionKeys(ps: seq<Prescription>): (r: seq<Key>)
    ensures |r| == |ps|
    ensures forall i :: 0 <= i < |ps| ==> r[i] == PrescriptionKey(ps[i].id)
  {
    if |ps| == 0 then [] else [PrescriptionKey(ps[0].id)] + PrescriptionKeys(ps[1..])
  }

  /** The appointment list a check reads for a role: a patient's own, a
      doctor's, and for anyone else none. The payment check reads the
      doctor's list for every role but `PATIENT`. */
  function AppointmentsFor(role: string, feed: Feed, forPayments: bool): (r: seq<Appt>)
    ensures role == "PATIENT" ==> r == feed.myAppointments.GetOr([])
    ensures role != "PATIENT" && (role == "DOCTOR" || forPayments) ==> r == feed.doctorAppointments.GetOr([])
    ensures role != "PATIENT" && role != "DOCTOR" && !forPayments ==> r == []
  {
    if role == "PATIENT" then feed.myAppointments.GetOr([])
    else if role == "DOCTOR" || forPayments then feed.doctorAppointments.GetOr([])
    else []
  }

  /** The prescription list a check reads for a role. */
  function PrescriptionsFor(role: string, feed: Feed): (r: seq<Prescription>)
    ensures role == "PATIENT" ==> r == feed.myPrescriptions.GetOr([])
    ensures role == "DOCTOR" ==> r == feed.doctorPrescriptions.GetOr([])
    ensures role != "PATIENT" && role != "DOCTOR" ==> r == []
  {
    if role == "PATIENT" then feed.myPrescriptions.GetOr([])
    else if role == "DOCTOR" then feed.doctorPrescriptions.GetOr([])
    else []
  }

  // ---------------------------------------------------------------------------
  // How far each check gets

  /** The party whose name a message reads: the doctor for a patient, the
      patient for anyone else. */
  predicate Named(a: Appt, role: string) {
    if role == "PATIENT" then a.doctorName.Some? else a.patientName.Some?
  }

  /** The appointment check builds a message only for a key the snapshot
      lacks, and reading the name of a null party then throws. */
  predicate AppointmentThrows(a: Appt, role: string, snapshot: seq<Item>) {
    && !Named(a, role)
    && (|| (a.status == "CONFIRMED" && !HasKey(snapshot, AppointmentKey(a.id, "confirmed")))
        || (a.status == "CANCELLED" && !HasKey(snapshot, AppointmentKey(a.id, "cancelled"))))
  }

  /** The appointments the check's `forEach` gets through. The throw leaves
      the loop for the check's `catch`, so only the appointments before the
      first one that throws are handled. */
  function AppointmentsReached(appts: seq<Appt>, role: string, snapshot: seq<Item>): (r: seq<Appt>)
    ensures |r| <= |appts| && r == appts[..|r|]
    ensures forall i :: 0 <= i < |r| ==> !AppointmentThrows(appts[i], role, snapshot)
    ensures |r| < |appts| ==> AppointmentThrows(appts[|r|], role, snapshot)
  {
    appts[..Seqs.IndexWhere(appts, (a: Appt) => AppointmentThrows(a, role, snapshot))]
  }

  /** The payment check builds a message only for a found payment whose key
      the snapshot lacks; the name of a null party then throws. */
  predicate PaymentThrows(a: Appt, role: string, paymentOf: string -> Option<Payment>, snapshot: seq<Item>) {
    && !Named(a, role)
    && paymentOf(a.id).Some?
    && var p := paymentOf(a.id).value;
      (|| (p.status == "SUCCESS" && !HasKey(snapshot, PaymentKey(p.id, "success")))
       || (p.status == "REFUNDED" && !HasKey(snapshot, PaymentKey(p.id, "refunded"))))
  }

  /** The appointments the payment check gets through. Each one has a `try`
      of its own, so a throw skips only that appointment. */
  function PaymentsReached(appts: seq<Appt>, role: string, paymentOf: string -> Option<Payment>,
                           snapshot: seq<Item>): (r: seq<Appt>)
    ensures forall a :: a in r <==> a in appts && !PaymentThrows(a, role, paymentOf, snapshot)
  {
    Seqs.Filter(appts, (a: Appt) => !PaymentThrows(a, role, paymentOf, snapshot))
  }

  /** The prescription check reads the doctor's name for a key the snapshot
      lacks; a null doctor then throws. */
  predicate PrescriptionThrows(p: Prescription, snapshot: seq<Item>) {
    p.doctorName.None? && !HasKey(snapshot, PrescriptionKey(p.id))
  }

  /** The prescriptions the check's `forEach` gets through: those before the
      first one that throws. */
  function PrescriptionsReached(ps: seq<Prescription>, snapshot: seq<Item>): (r: seq<Prescription>)
    ensures |r| <= |ps| && r == ps[..|r|]
    ensures forall i :: 0 <= i < |r| ==> !PrescriptionThrows(ps[i], snapshot)
    ensures |r| < |ps| ==> PrescriptionThrows(ps[|r|], snapshot)
  {
    ps[..Seqs.IndexWhere(ps, (p: Prescription) => PrescriptionThrows(p, snapshot))]
  }

  /** The keys the appointment check calls for. */
  function AppointmentPart(rl: string, feed: Feed, snapshot: seq<Item>): seq<Key> {
    AppointmentKeys(AppointmentsReached(AppointmentsFor(rl, feed, false), rl, snapshot))
  }

  /** The keys the payment check calls for. */
  function PaymentPart(rl: string, feed: Feed, snapshot: seq<Item>): seq<Key> {
    PaymentKeys(PaymentsReached(AppointmentsFor(rl, feed, true), rl, feed.paymentOf, snapshot), feed.paymentOf)
  }

  /** The keys the prescription check calls for. */
  function PrescriptionPart(rl: string, feed: Feed, snapshot: seq<Item>): seq<Key> {
    PrescriptionKeys(PrescriptionsReached(PrescriptionsFor(rl, feed), snapshot))
  }

  /** Every key the three checks call for, for the signed-in user's role,
      comparing with `snapshot`; none when nobody is signed in. */
  function Wanted(role: Option<string>, feed: Feed, snapshot: seq<Item>): (r: seq<Key>)
    ensures role.None? ==> r == []
  {
    match role
    case None => []
    case Some(rl) => AppointmentPart(rl, feed, snapshot) + PaymentPart(rl, feed, snapshot) + PrescriptionPart(rl, feed, snapshot)
  }

  /** Each check calls for keys of its own kind, so a wanted key comes from
      the check of its kind. */
  lemma WantedByKind(rl: string, feed: Feed, snapshot: seq<Item>)
    ensures forall k :: k in Wanted(Some(rl), feed, snapshot) <==>
      || (k.AppointmentKey? && k in AppointmentPart(rl, feed, snapshot))
      || (k.PaymentKey? && k in PaymentPart(rl, feed, snapshot))
      || (k.PrescriptionKey? && k in PrescriptionPart(rl, feed, snapshot))
  {
    assert forall k :: k in AppointmentPart(rl, feed, snapshot) ==> k.AppointmentKey?;
    assert forall k :: k in PaymentPart(rl, feed, snapshot) ==> k.PaymentKey?;
    assert forall k :: k in PrescriptionPart(rl, feed, snapshot) ==> k.PrescriptionKey?;
  }

  /** The keys a check adds: those wanted that `snapshot` does not hold. */
  function Missing(wanted: seq<Key>, snapshot: seq<Item>): (r: seq<Key>)
    ensures forall k :: k in r <==> k in wanted && !HasKey(snapshot, k)
    ensures r == [] <==> forall k :: k in wanted ==> HasKey(snapshot, k)
  {
    var r := Seqs.Filter(wanted, (k: Key) => !HasKey(snapshot, k));
    assert r != [] ==> r[0] in r;
    r
  }

  // ---------------------------------------------------------------------------
  // Adding

  /** `addNotification` for each key in turn, so the last key ends up in
      front: the old list is kept behind the new entries, and the entry for
      the `j`-th key carries that key. */
  function AddAll(list: seq<Item>, ks: seq<Key>, nowMs: nat, nowIso: string): (r: seq<Item>)
    ensures |r| == |list| + |ks|
    ensures r[|ks|..] == list
    ensures forall i :: 0 <= i < |ks| ==> Carries(r[i], ks[|ks| - 1 - i]) && !r[i].read
    decreases |ks|
  {
    if |ks| == 0 then list
    else
      var next := NotificationContext.Add(list, SuppliedFor(ks[0]), nowMs, nowIso);
      var r := AddAll(next, ks[1..], nowMs, nowIso);
      assert r[|ks|..] == next[1..];
      assert r[|ks| - 1] == next[0];
      assert forall j :: 1 <= j < |ks| ==> ks[1..][j - 1] == ks[j];
      r
  }

  /** An entry found before adding is still found after. */
  lemma AddAllKeeps(list: seq<Item>, ks: seq<Key>, nowMs: nat, nowIso: string, k: Key)
    requires HasKey(list, k)
    ensures HasKey(AddAll(list, ks, nowMs, nowIso), k)
  {
    var r := AddAll(list, ks, nowMs, nowIso);
    var i :| 0 <= i < |list| && KeyMatches(list[i], k);
    assert r[|ks| + i] == list[i];
  }

  /** An entry found after adding was there before or carries a key added. */
  lemma AddAllOnly(list: seq<Item>, ks: seq<Key>, nowMs: nat, nowIso: string, k: Key)
    requires HasKey(AddAll(list, ks, nowMs, nowIso), k)
    ensures HasKey(list, k) || k in ks
  {
    var r := AddAll(list, ks, nowMs, nowIso);
    var i :| 0 <= i < |r| && KeyMatches(r[i], k);
    if i < |ks| {
      CarriesOnly(r[i], ks[|ks| - 1 - i], k);
    } else {
      assert r[i] == r[|ks|..][i - |ks|];
    }
  }

  /** Every key added is found afterwards. */
  lemma AddAllFinds(list: seq<Item>, ks: seq<Key>, nowMs: nat, nowIso: string, k: Key)
    requires k in ks
    ensures HasKey(AddAll(list, ks, nowMs, nowIso), k)
  {
    var r := AddAll(list, ks, nowMs, nowIso);
    var j :| 0 <= j < |ks| && ks[j] == k;
    var i := |ks| - 1 - j;
    assert ks[|ks| - 1 - i] == k;
    CarriesOnly(r[i], k, k);
  }

  // ---------------------------------------------------------------------------
  // One run of the checks

  /** One run of the three checks at `nowMs`, deduplicating against
      `snapshot`: the missing keys are added in front of `list`. */
  function Tick(list: seq<Item>, snapshot: seq<Item>, role: Option<string>, feed: Feed,
                nowMs: nat, nowIso: string): (r: seq<Item>)
    ensures role.None? ==> r == list
    ensures |r| >= |list| && r[|r| - |list|..] == list
  {
    AddAll(list, Missing(Wanted(role, feed, snapshot), snapshot), nowMs, nowIso)
  }

  /** A patient's confirmed appointment calls for its `confirmed` key
      exactly when it is confirmed and either its doctor is there or the
      snapshot already holds the key: with a null doctor the message cannot
      be built. */
  lemma ConfirmedAppointmentWanted(appt: Appt, feed: Feed, snapshot: seq<Item>)
    requires feed.myAppointments == Some([appt])
    ensures AppointmentKey(appt.id, "confirmed") in Wanted(Some("PATIENT"), feed, snapshot)
            <==> appt.status == "CONFIRMED"
                 && (appt.doctorName.Some? || HasKey(snapshot, AppointmentKey(appt.id, "confirmed")))
  {
    WantedByKind("PATIENT", feed, snapshot);
    var reached := AppointmentsReached([appt], "PATIENT", snapshot);
    assert reached == [appt] || reached == [];
    assert forall x :: x in [appt] <==> x == appt;
  }

  /** A null party cuts the appointment check short: a confirmed
      appointment whose doctor is gone and whose key the snapshot lacks
      keeps the appointment after it from getting its key, while the
      payment check only skips the appointment it cannot name. */
  lemma NullDoctorEndsCheck(first: Appt, second: Appt, feed: Feed, snapshot: seq<Item>)
    requires feed.myAppointments == Some([first, second])
    requires first.status == "CONFIRMED" && first.doctorName.None?
    requires !HasKey(snapshot, AppointmentKey(first.id, "confirmed"))
    requires first.id != second.id
    ensures forall st :: AppointmentKey(second.id, st) !in Wanted(Some("PATIENT"), feed, snapshot)
    ensures second.doctorName.Some? ==> PaymentsReached([first, second], "PATIENT", feed.paymentOf, snapshot) != []
  {
    WantedByKind("PATIENT", feed, snapshot);
    assert AppointmentsReached([first, second], "PATIENT", snapshot) == [];
    if second.doctorName.Some? {
      assert second in [first, second];
    }
  }

  /** As written, the interval's checks compare against the list as it was
      when the user signed in (`snapshot`), never against the list they
      have grown. A notification the snapshot lacks is then added again on
      every run: after two runs it is in the list twice. */
  lemma {:induction false} StaleSnapshotDuplicates(list: seq<Item>, snapshot: seq<Item>, role: Option<string>,
                                                   feed: Feed, k: Key, t1: nat, t2: nat, iso1: string, iso2: string)
    requires k in Wanted(role, feed, snapshot) && !HasKey(snapshot, k)
    ensures HeldTwice(Tick(Tick(list, snapshot, role, feed, t1, iso1), snapshot, role, feed, t2, iso2), k)
  {
    var ks := Missing(Wanted(role, feed, snapshot), snapshot);
    assert k in ks;
    var once := Tick(list, snapshot, role, feed, t1, iso1);
    assert once == AddAll(list, ks, t1, iso1);
    assert Tick(once, snapshot, role, feed, t2, iso2) == AddAll(once, ks, t2, iso2);
    AddAllTwice(list, ks, k, t1, t2, iso1, iso2);
  }

  /** Adding the same keys twice holds each of them twice. */
  lemma AddAllTwice(list: seq<Item>, ks: seq<Key>, k: Key, t1: nat, t2: nat, iso1: string, iso2: string)
    requires k in ks
    ensures HeldTwice(AddAll(AddAll(list, ks, t1, iso1), ks, t2, iso2), k)
  {
    var jk :| 0 <= jk < |ks| && ks[jk] == k;
    var i := |ks| - 1 - jk;
    assert ks[|ks| - 1 - i] == k;
    var once := AddAll(list, ks, t1, iso1);
    var twice := AddAll(once, ks, t2, iso2);
    assert KeyMatches(once[i], k);
    assert KeyMatches(twice[i], k);
    assert twice[|ks| + i] == once[i];
    var j := |ks| + i;
    assert 0 <= i < j < |twice| && KeyMatches(twice[i], k) && KeyMatches(twice[j], k);
  }

  /** Two different entries of `list` carry the key `k`. */
  predicate HeldTwice(list: seq<Item>, k: Key) {
    exists i, j :: 0 <= i < j < |list| && KeyMatches(list[i], k) && KeyMatches(list[j], k)
  }

  /** Deduplicating against the list as it is now. */
  function FreshTick(list: seq<Item>, role: Option<string>, feed: Feed, nowMs: nat, nowIso: string): (r: seq<Item>)
    ensures forall k :: k in Wanted(role, feed, list) ==> HasKey(r, k)
    ensures forall k :: HasKey(r, k) ==> HasKey(list, k) || k in Wanted(role, feed, list)
    ensures |r| >= |list| && r[|r| - |list|..] == list
  {
    var ks := Missing(Wanted(role, feed, list), list);
    var r := AddAll(list, ks, nowMs, nowIso);
    forall k | k in Wanted(role, feed, list)
      ensures HasKey(r, k)
    {
      if HasKey(list, k) {
        AddAllKeeps(list, ks, nowMs, nowIso, k);
      } else {
        AddAllFinds(list, ks, nowMs, nowIso, k);
      }
    }
    forall k | HasKey(r, k)
      ensures HasKey(list, k) || k in Wanted(role, feed, list)
    {
      AddAllOnly(list, ks, nowMs, nowIso, k);
    }
    r
  }

  /** The appointment check reaches as far against `grown` as against
      `list` when `grown` holds everything `list` holds and its new
      appointment keys are those of the appointments reached: the
      appointment that stopped the check still has no key, because no other
      appointment shares its id. */
  lemma AppointmentsReachedStable(appts: seq<Appt>, role: string, list: seq<Item>, grown: seq<Item>)
    requires DistinctAppts(appts)
    requires forall k :: HasKey(list, k) ==> HasKey(grown, k)
    requires forall k :: HasKey(grown, k) && k.AppointmentKey? ==>
      HasKey(list, k) || k in AppointmentKeys(AppointmentsReached(appts, role, list))
    ensures AppointmentsReached(appts, role, grown) == AppointmentsReached(appts, role, list)
  {
    var r0 := AppointmentsReached(appts, role, list);
    var r1 := AppointmentsReached(appts, role, grown);
    if |r0| < |appts| {
      var a := appts[|r0|];
      var k0 := AppointmentKey(a.id, if a.status == "CONFIRMED" then "confirmed" else "cancelled");
      assert k0 !in AppointmentKeys(r0) by {
        forall b | b in r0
          ensures b.id != a.id
        {
          var i :| 0 <= i < |r0| && r0[i] == b;
          assert appts[i] == b;
        }
      }
      assert !HasKey(grown, k0);
    }
    assert |r1| == |r0|;
  }

  /** The same for the prescription check. */
  lemma PrescriptionsReachedStable(ps: seq<Prescription>, list: seq<Item>, grown: seq<Item>)
    requires DistinctPrescriptions(ps)
    requires forall k :: HasKey(list, k) ==> HasKey(grown, k)
    requires forall k :: HasKey(grown, k) && k.PrescriptionKey? ==>
      HasKey(list, k) || k in PrescriptionKeys(PrescriptionsReached(ps, list))
    ensures PrescriptionsReached(ps, grown) == PrescriptionsReached(ps, list)
  {
    var r0 := PrescriptionsReached(ps, list);
    var r1 := PrescriptionsReached(ps, grown);
    if |r0| < |ps| {
      var k0 := PrescriptionKey(ps[|r0|].id);
      assert k0 !in PrescriptionKeys(r0) by {
        forall i | 0 <= i < |r0|
          ensures PrescriptionKeys(r0)[i] != k0
        {
          assert r0[i] == ps[i];
        }
      }
      assert !HasKey(grown, k0);
    }
    assert |r1| == |r0|;
  }

  /** Against a list that holds every key the payment check called for,
      the check calls for nothing the list lacks: an appointment it now
      gets through either names its party, and so was reached before, or
      has its key already held. */
  lemma PaymentKeysHeld(appts: seq<Appt>, role: string, paymentOf: string -> Option<Payment>,
                        list: seq<Item>, grown: seq<Item>)
    requires forall k :: k in PaymentKeys(PaymentsReached(appts, role, paymentOf, list), paymentOf) ==> HasKey(grown, k)
    ensures forall k :: k in PaymentKeys(PaymentsReached(appts, role, paymentOf, grown), paymentOf) ==> HasKey(grown, k)
  {
    var r0 := PaymentsReached(appts, role, paymentOf, list);
    forall k | k in PaymentKeys(PaymentsReached(appts, role, paymentOf, grown), paymentOf)
      ensures HasKey(grown, k)
    {
      var a :| a in PaymentsReached(appts, role, paymentOf, grown) && paymentOf(a.id).Some? &&
        var p := paymentOf(a.id).value;
        (|| (p.status == "SUCCESS" && k == PaymentKey(p.id, "success"))
         || (p.status == "REFUNDED" && k == PaymentKey(p.id, "refunded")));
      if Named(a, role) {
        assert a in r0;
      }
    }
  }

  /** A list grown from `list` by exactly the keys wanted against `list`
      holds every key wanted against itself. */
  lemma {:induction false} WantedHeld(list: seq<Item>, rl: string, feed: Feed, grown: seq<Item>)
    requires DistinctIds(feed)
    requires forall k :: HasKey(list, k) ==> HasKey(grown, k)
    requires forall k :: HasKey(grown, k) ==> HasKey(list, k) || k in Wanted(Some(rl), feed, list)
    requires forall k :: k in Wanted(Some(rl), feed, list) ==> HasKey(grown, k)
    ensures forall k :: k in Wanted(Some(rl), feed, grown) ==> HasKey(grown, k)
  {
    WantedByKind(rl, feed, list);
    WantedByKind(rl, feed, grown);
    AppointmentsReachedStable(AppointmentsFor(rl, feed, false), rl, list, grown);
    PrescriptionsReachedStable(PrescriptionsFor(rl, feed), list, grown);
    PaymentKeysHeld(AppointmentsFor(rl, feed, true), rl, feed.paymentOf, list, grown);
  }

  /** With the check deduplicating against the current list, a run never
      adds what is already there, so running again on the same answers
      adds nothing: the checks reach as far as before and call for keys
      the list now holds. */
  lemma FreshTickIdempotent(list: seq<Item>, role: Option<string>, feed: Feed,
                            t1: nat, t2: nat, iso1: string, iso2: string)
    requires DistinctIds(feed)
    ensures var once := FreshTick(list, role, feed, t1, iso1);
      FreshTick(once, role, feed, t2, iso2) == once
  {
    var once := FreshTick(list, role, feed, t1, iso1);
    if role.Some? {
      forall k | HasKey(list, k)
        ensures HasKey(once, k)
      {
        AddAllKeeps(list, Missing(Wanted(role, feed, list), list), t1, iso1, k);
      }
      WantedHeld(list, role.value, feed, once);
    }
    assert Missing(Wanted(role, feed, once), once) == [];
  }

  /** Nothing is made up when nobody is signed in. */
  lemma NoUserNoNotifications(list: seq<Item>, snapshot: seq<Item>, feed: Feed, nowMs: nat, nowIso: string)
    ensures Tick(list, snapshot, None, feed, nowMs, nowIso) == list
    ensures FreshTick(list, None, feed, nowMs, nowIso) == list
  {
  }
}
